/** The object detector wrapper (src/models/visionModel.js): which detections
    are kept, how a detection round is gated, sorted and cached, and the list
    of object classes of interest. Loading the network and running it are
    foreign: a round's outcome (the raw predictions, or the error thrown) is a
    parameter, and the calls made to the library are logged. */
module VisionModel {
  import opened Common

  /** filterPredictions keeps confident detections of people only. */
  const MinConfidence: real := 0.5

  predicate Kept(p: Prediction)
  {
    p.score >= MinConfidence && p.cls == "person"
  }

  function FilterPredictions(ps: seq<Prediction>): (r: seq<Prediction>)
    ensures |r| <= |ps|
    ensures forall i :: 0 <= i < |r| ==> Kept(r[i])
  {
    if ps == [] then []
    else (if Kept(ps[0]) then [ps[0]] else []) + FilterPredictions(ps[1..])
  }

  /** Exactly the predictions that pass the test are kept. */
  lemma {:induction false} FilterMembers(ps: seq<Prediction>)
    ensures forall p :: p in FilterPredictions(ps) <==> p in ps && Kept(p)
  {
    if ps != [] {
      FilterMembers(ps[1..]);
      assert forall p :: p in ps <==> p == ps[0] || p in ps[1..];
    }
  }

  /** Filtering distributes over concatenation, so the kept predictions stay
      in their input order. */
  lemma {:induction false} FilterConcat(a: seq<Prediction>, b: seq<Prediction>)
    ensures FilterPredictions(a + b) == FilterPredictions(a) + FilterPredictions(b)
  {
    if a == [] {
      assert a + b == b;
    } else {
      assert (a + b)[0] == a[0];
      assert (a + b)[1..] == a[1..] + b;
      FilterConcat(a[1..], b);
      var h := if Kept(a[0]) then [a[0]] else [];
      assert FilterPredictions(a + b) == h + (FilterPredictions(a[1..]) + FilterPredictions(b));
      assert h + (FilterPredictions(a[1..]) + FilterPredictions(b)) == (h + FilterPredictions(a[1..])) + FilterPredictions(b);
    }
  }

  /** Filtering twice is filtering once. */
  lemma {:induction false} FilterIdempotent(ps: seq<Prediction>)
    ensures FilterPredictions(FilterPredictions(ps)) == FilterPredictions(ps)
  {
    if ps != [] {
      FilterIdempotent(ps[1..]);
      var rest := FilterPredictions(ps[1..]);
      if Kept(ps[0]) {
        assert FilterPredictions(ps) == [ps[0]] + rest;
        FilterConcat([ps[0]], rest);
        assert FilterPredictions([ps[0]]) == [ps[0]] by {
          assert [ps[0]][1..] == [];
        }
      } else {
        assert FilterPredictions(ps) == rest;
      }
    }
  }

  function P(cls: string, score: real, x: real, y: real, w: real, h: real): Prediction
  {
    Prediction(cls, score, BBox(x, y, w, h), None, None)
  }

  /** The four detections of the repository's check script: a person, a cat,
      a dog and another person; the two people are kept, in order. */
  lemma FourInputsTwoPersons()
    ensures var ps := [P("person", 0.85, 10.0, 10.0, 100.0, 200.0), P("cat", 0.9, 50.0, 50.0, 80.0, 60.0),
                       P("dog", 0.7, 200.0, 100.0, 120.0, 80.0), P("person", 0.6, 300.0, 150.0, 110.0, 190.0)];
      FilterPredictions(ps) == [ps[0], ps[3]]
  {
    var ps := [P("person", 0.85, 10.0, 10.0, 100.0, 200.0), P("cat", 0.9, 50.0, 50.0, 80.0, 60.0),
               P("dog", 0.7, 200.0, 100.0, 120.0, 80.0), P("person", 0.6, 300.0, 150.0, 110.0, 190.0)];
    FilterConcat([ps[0]], ps[1..]);
    FilterConcat([ps[1]], ps[2..]);
    FilterConcat([ps[2]], ps[3..]);
    assert ps == [ps[0]] + ([ps[1]] + ([ps[2]] + [ps[3]]));
  }

  predicate SortedByScore(s: seq<Prediction>)
  {
    forall i, j :: 0 <= i < j < |s| ==> s[i].score >= s[j].score
  }

  /** predictions.sort((a, b) => b.score - a.score): in place, highest score
      first, the same predictions. */
  method SortByScore(a: array<Prediction>)
    modifies a
    ensures SortedByScore(a[..])
    ensures multiset(a[..]) == multiset(old(a[..]))
  {
    for i := 0 to a.Length
      invariant SortedByScore(a[..i])
      invariant multiset(a[..]) == multiset(old(a[..]))
    {
      InsertLast(a, i);
    }
    assert a[..a.Length] == a[..];
  }

  /** Moves a[i] left past the lower-scored entries before it, so that the
      first i + 1 entries are sorted. */
  method InsertLast(a: array<Prediction>, i: nat)
    requires i < a.Length && SortedByScore(a[..i])
    modifies a
    ensures SortedByScore(a[..i + 1])
    ensures multiset(a[..]) == multiset(old(a[..]))
  {
    var j := i;
    while j > 0 && a[j - 1].score < a[j].score
      invariant 0 <= j <= i
      invariant multiset(a[..]) == multiset(old(a[..]))
      invariant forall k, l :: 0 <= k < l <= i && k != j && l != j ==> a[k].score >= a[l].score
      invariant forall l :: j < l <= i ==> a[j].score >= a[l].score
    {
      Swap(a, j - 1, j);
      j := j - 1;
    }
  }

  method Swap(a: array<Prediction>, i: nat, j: nat)
    requires i < a.Length && j < a.Length
    modifies a
    ensures a[..] == old(a[..])[i := old(a[j])][j := old(a[i])]
    ensures multiset(a[..]) == multiset(old(a[..]))
  {
    a[i], a[j] := a[j], a[i];
  }

  /** What the video element offers: its size and ready state. */
  datatype Video = Video(videoWidth: nat, videoHeight: nat, readyState: int)

  predicate VideoReady(video: Option<Video>)
  {
    video.Some? && video.value.videoWidth != 0 && video.value.videoHeight != 0 && video.value.readyState >= 2
  }

  /** What model.detect does in one round: resolve with raw predictions, or
      throw an error with a message. */
  datatype Outcome = Detected(predictions: seq<Prediction>) | Failed(message: string)

  /** Calls made into the detection library. */
  datatype Event = DetectCalled | ScopeEnded | WebGLMemoryPurged | ModelDisposed

  /** message.includes(sub). */
  predicate Contains(s: string, sub: string)
  {
    sub <= s || (s != [] && Contains(s[1..], sub))
  }

  /** An error whose message points at memory, WebGL or the GPU. */
  predicate ResourceError(message: string)
  {
    Contains(message, "memory") || Contains(message, "WebGL") || Contains(message, "GPU")
  }

  function DefaultClasses(): seq<string>
  {
    ["person", "bottle", "cup", "book", "cell phone", "keyboard", "remote", "mouse", "laptop"]
  }

  predicate NoDuplicates(s: seq<string>)
  {
    forall i, j :: 0 <= i < j < |s| ==> s[i] != s[j]
  }

  /** addObjectClass on a list: append when absent. */
  function AddClass(s: seq<string>, c: string): (r: seq<string>)
    ensures c in r && (forall x :: x in r <==> x in s || x == c)
    ensures NoDuplicates(s) ==> NoDuplicates(r)
  {
    if c in s then s else s + [c]
  }

  /** The first position of c in s (indexOf), -1 when absent. */
  function IndexOf(s: seq<string>, c: string): (i: int)
    ensures -1 <= i < |s|
    ensures i == -1 <==> c !in s
    ensures i >= 0 ==> s[i] == c && forall k :: 0 <= k < i ==> s[k] != c
  {
    if s == [] then -1
    else if s[0] == c then 0
    else
      var i := IndexOf(s[1..], c);
      assert forall k :: 1 <= k < |s| ==> s[k] == s[1..][k - 1];
      if i == -1 then -1 else i + 1
  }

  /** removeObjectClass on a list: splice out the first occurrence. */
  function RemoveClass(s: seq<string>, c: string): (r: seq<string>)
    ensures |r| == if c in s then |s| - 1 else |s|
  {
    var i := IndexOf(s, c);
    if i == -1 then s else s[..i] + s[i + 1..]
  }

  /** In a list without duplicates, removing a class leaves it out, keeps
      every other class, and keeps the list free of duplicates. */
  lemma RemoveClassFacts(s: seq<string>, c: string)
    requires NoDuplicates(s)
    ensures var r := RemoveClass(s, c);
      NoDuplicates(r) && c !in r && forall x :: x != c ==> (x in r <==> x in s)
  {
    var i := IndexOf(s, c);
    if i != -1 {
      SpliceFacts(s, i);
    }
  }

  /** Splicing position i out of a list without duplicates. */
  lemma SpliceFacts(s: seq<string>, i: nat)
    requires NoDuplicates(s) && i < |s|
    ensures var r := s[..i] + s[i + 1..];
      NoDuplicates(r) && s[i] !in r && forall x :: x != s[i] ==> (x in r <==> x in s)
  {
    var r := s[..i] + s[i + 1..];
    assert forall k :: 0 <= k < |r| ==> r[k] == s[Skip(k, i)];
    forall x | x in s && x != s[i]
      ensures x in r
    {
      var k :| 0 <= k < |s| && s[k] == x;
      if k < i {
        assert r[k] == x;
      } else {
        assert r[k - 1] == x;
      }
    }
  }

  function Skip(k: nat, i: nat): nat
  {
    if k < i then k else k + 1
  }

  /** Adding a class that was not there and removing it again gives back the
      list; removing a class that is not there changes nothing. */
  lemma AddRemoveRoundTrip(s: seq<string>, c: string)
    requires c !in s
    ensures RemoveClass(AddClass(s, c), c) == s
    ensures RemoveClass(s, c) == s
  {
    assert IndexOf(s + [c], c) == |s|;
    assert (s + [c])[..|s|] == s;
  }

  /** The success path of detectObjects: the filtered predictions, copied
      into an array and sorted there by score. */
  method PeopleByScore(predictions: seq<Prediction>) returns (r: seq<Prediction>)
    ensures SortedByScore(r) && multiset(r) == multiset(FilterPredictions(predictions))
  {
    var filtered := FilterPredictions(predictions);
    var a := new Prediction[|filtered|](i requires 0 <= i < |filtered| => filtered[i]);
    assert a[..] == filtered;
    SortByScore(a);
    r := a[..];
  }

  class Vision {
    /** Whether a model object is held (model !== null). */
    var hasModel: bool
    var isLoaded: bool
    var isRunning: bool
    var latestPredictions: seq<Prediction>
    var objectsToDetect: seq<string>
    var modelLoadAttempts: nat
    /** The message of the last detection error; None for null. */
    var lastDetectionError: Option<string>
    var events: seq<Event>

    ghost predicate Valid()
      reads this
    {
      NoDuplicates(objectsToDetect) && SortedByScore(latestPredictions)
    }

    constructor()
      ensures Valid()
      ensures !hasModel && !isLoaded && !isRunning && latestPredictions == []
      ensures objectsToDetect == DefaultClasses() && modelLoadAttempts == 0
      ensures lastDetectionError == None && events == []
    {
      hasModel := false;
      isLoaded := false;
      isRunning := false;
      latestPredictions := [];
      objectsToDetect := DefaultClasses();
      modelLoadAttempts := 0;
      lastDetectionError := None;
      events := [];
    }

    /** The end of a successful loadModel: the model is held and loaded, and
        the retry counter is reset. */
    method ModelLoaded()
      modifies this
      ensures hasModel && isLoaded && modelLoadAttempts == 0
      ensures isRunning == old(isRunning) && latestPredictions == old(latestPredictions)
      ensures objectsToDetect == old(objectsToDetect) && lastDetectionError == old(lastDetectionError)
      ensures events == old(events)
    {
      hasModel := true;
      isLoaded := true;
      modelLoadAttempts := 0;
    }

    function IsModelLoaded(): (r: bool)
      reads this
      ensures r <==> isLoaded && hasModel
    {
      isLoaded && hasModel
    }

    /** setRunningState: starting clears the last error; stopping keeps it. */
    method SetRunningState(state: bool)
      modifies this
      ensures isRunning == state
      ensures lastDetectionError == if state then None else old(lastDetectionError)
      ensures hasModel == old(hasModel) && isLoaded == old(isLoaded) && latestPredictions == old(latestPredictions)
      ensures objectsToDetect == old(objectsToDetect) && modelLoadAttempts == old(modelLoadAttempts)
      ensures events == old(events)
    {
      isRunning := state;
      if state {
        lastDetectionError := None;
      }
    }

    /** detectObjects: without a loaded, running model or a ready video, []
        and the model is not called. A round that succeeds keeps the people,
        highest score first, and caches them; a round that fails records the
        error, releases GPU memory when the message points at it, and returns
        the cached predictions. */
    method DetectObjects(video: Option<Video>, outcome: Outcome) returns (r: seq<Prediction>)
      requires Valid()
      modifies this
      ensures Valid()
      ensures hasModel == old(hasModel) && isLoaded == old(isLoaded) && isRunning == old(isRunning)
      ensures objectsToDetect == old(objectsToDetect) && modelLoadAttempts == old(modelLoadAttempts)
      ensures !(old(isLoaded) && old(isRunning) && VideoReady(video)) ==>
                r == [] && events == old(events) && latestPredictions == old(latestPredictions)
                && lastDetectionError == old(lastDetectionError)
      ensures old(isLoaded) && old(isRunning) && VideoReady(video) && outcome.Detected? ==>
                && events == old(events) + [DetectCalled]
                && SortedByScore(r) && multiset(r) == multiset(FilterPredictions(outcome.predictions))
                && latestPredictions == r && lastDetectionError == None
      ensures old(isLoaded) && old(isRunning) && VideoReady(video) && outcome.Failed? ==>
                && events == old(events) + [DetectCalled]
                  + (if ResourceError(outcome.message) then [ScopeEnded, WebGLMemoryPurged] else [])
                && r == old(latestPredictions) && latestPredictions == old(latestPredictions)
                && lastDetectionError == Some(outcome.message)
    {
      if !isLoaded || !isRunning || !VideoReady(video) {
        return [];
      }
      events := events + [DetectCalled];
      match outcome {
        case Detected(predictions) =>
          r := PeopleByScore(predictions);
          latestPredictions, lastDetectionError := r, None;
        case Failed(message) =>
          lastDetectionError := Some(message);
          if ResourceError(message) {
            events := events + [ScopeEnded, WebGLMemoryPurged];
          }
          r := latestPredictions;
      }
    }

    /** getLatestPredictions: a copy of the cache, highest score first. */
    function GetLatestPredictions(): (r: seq<Prediction>)
      requires Valid()
      reads this
      ensures r == latestPredictions && SortedByScore(r)
    {
      latestPredictions
    }

    /** addObjectClass: appends iff the class is absent, and says whether it
        did; the list never holds a class twice. */
    method AddObjectClass(className: string) returns (added: bool)
      requires Valid()
      modifies this
      ensures Valid()
      ensures added <==> className !in old(objectsToDetect)
      ensures objectsToDetect == AddClass(old(objectsToDetect), className)
      ensures objectsToDetect == if added then old(objectsToDetect) + [className] else old(objectsToDetect)
      ensures hasModel == old(hasModel) && isLoaded == old(isLoaded) && isRunning == old(isRunning)
      ensures latestPredictions == old(latestPredictions) && lastDetectionError == old(lastDetectionError)
      ensures modelLoadAttempts == old(modelLoadAttempts) && events == old(events)
    {
      if className !in objectsToDetect {
        objectsToDetect := objectsToDetect + [className];
        return true;
      }
      return false;
    }

    /** removeObjectClass: removes the class iff present, and says whether it
        did; the other classes keep their order. */
    method RemoveObjectClass(className: string) returns (removed: bool)
      requires Valid()
      modifies this
      ensures Valid()
      ensures removed <==> className in old(objectsToDetect)
      ensures objectsToDetect == RemoveClass(old(objectsToDetect), className)
      ensures className !in objectsToDetect
      ensures forall x :: x != className ==> (x in objectsToDetect <==> x in old(objectsToDetect))
      ensures hasModel == old(hasModel) && isLoaded == old(isLoaded) && isRunning == old(isRunning)
      ensures latestPredictions == old(latestPredictions) && lastDetectionError == old(lastDetectionError)
      ensures modelLoadAttempts == old(modelLoadAttempts) && events == old(events)
    {
      var index := IndexOf(objectsToDetect, className);
      RemoveClassFacts(objectsToDetect, className);
      if index != -1 {
        objectsToDetect := objectsToDetect[..index] + objectsToDetect[index + 1..];
        return true;
      }
      return false;
    }

    /** dispose: the model is released and dropped, and the detector is
        unloaded, stopped and emptied. */
    method Dispose()
      requires Valid()
      modifies this
      ensures Valid()
      ensures !hasModel && !isLoaded && !isRunning && latestPredictions == [] && !IsModelLoaded()
      ensures events == old(events) + (if old(hasModel) then [ModelDisposed] else []) + [WebGLMemoryPurged]
      ensures objectsToDetect == old(objectsToDetect) && lastDetectionError == old(lastDetectionError)
      ensures modelLoadAttempts == old(modelLoadAttempts)
    {
      if hasModel {
        events := events + [ModelDisposed];
      }
      events := events + [WebGLMemoryPurged];
      hasModel := false;
      isLoaded := false;
      isRunning := false;
      latestPredictions := [];
    }
  }
}
