/**
 * The monitoring engine of the interview page: the detection record updated in place by the
 * face tick, the object tick, and the fan-out of every raised event to the persistence
 * collaborator (`posted`) and to the bounded alert list (`alerts`, newest first).
 */
module Monitor {
  import opened Wrappers
  import opened Strings
  import opened Events
  import opened FaceGeometry
  import Debounce
  import opened ObjectSignals

  datatype Level = Info | Warn | Error

  /** The clock and random values a raised event uses: its ISO timestamp and its alert id. */
  datatype Stamp = Stamp(now: string, alertId: string)

  /** The record sent to the backend: `{interviewId, candidateName, eventType, details, timestamp}`. */
  datatype Event = Event(interviewId: string, candidateName: string, emission: Emission, timestamp: string)

  /** One entry of the alert list: `{id, level, message, details, ts}`. */
  datatype Alert = Alert(id: string, level: Level, message: string, details: Option<Emission>, ts: string)

  /** What the face detector gives a tick: not ready (no model or video), a thrown error, or predictions. */
  datatype FaceReading =
    | FaceNotReady
    | FaceDetectionFailed
    | FacesDetected(videoWidth: nat, videoHeight: nat, predictions: seq<Candidate>)

  /** What the object detector gives a tick. */
  datatype ObjectReading =
    | ObjectNotReady
    | ObjectDetectionFailed
    | ObjectsDetected(predictions: seq<ObjectPrediction>)

  const MaxAlerts: nat := 6

  function Min(a: nat, b: nat): nat {
    if a <= b then a else b
  }

  /**
   * `[item, ...prev].slice(0, 6)`: the new alert first, then the previous alerts in order with
   * the oldest dropped once there are more than six.
   */
  function Prepend(item: Alert, prev: seq<Alert>): (r: seq<Alert>)
    ensures |r| == Min(|prev| + 1, MaxAlerts)
  {
    ([item] + prev)[..Min(|prev| + 1, MaxAlerts)]
  }

  /** The pushed alert comes first and the rest is the previous list, in order, cut to fit. */
  lemma PrependAt(item: Alert, prev: seq<Alert>, i: int)
    requires 0 <= i < |Prepend(item, prev)|
    ensures Prepend(item, prev)[i] == if i == 0 then item else prev[i - 1]
  {
  }

  /** The alert text for each event type; every one ends in a closing parenthesis. */
  function Message(e: Emission): (m: string)
    ensures |m| >= 1 && m[|m| - 1] == ')'
  {
    match e
    case NoFace(d) => "No face detected (" + NatToString(d) + "s)"
    case LookAway(d) => "Looking away (" + NatToString(d) + "s)"
    case MultipleFaces(n) => "Multiple faces detected (" + NatToString(n) + ")"
    case ObjectDetected(o, h) => "Object: " + o + " (" + HundredthsToString(h) + ")"
  }

  /**
   * An object alert names the detected class right after `Object: `, and then gives the
   * confidence in parentheses, printed as `HundredthsToString` prints it (read back by
   * `Strings.HundredthsReadBack`).
   */
  lemma MessageNamesObject(e: Emission)
    requires e.ObjectDetected?
    ensures var m := Message(e);
      |m| > 8 + |e.objectClass| && m[..8] == "Object: " && m[8..8 + |e.objectClass|] == e.objectClass &&
      m[8 + |e.objectClass|..] == " (" + HundredthsToString(e.confidenceHundredths) + ")"
  {
    var m := Message(e);
    var rest := " (" + HundredthsToString(e.confidenceHundredths) + ")";
    assert m == "Object: " + e.objectClass + rest;
    assert m[..8] == "Object: ";
    assert m[8..8 + |e.objectClass|] == e.objectClass;
    assert m[8 + |e.objectClass|..] == rest;
  }

  /** A text made of three parts gives back each part at its place. */
  lemma ThreeParts(p: string, d: string, q: string)
    ensures var m := p + d + q;
      |m| == |p| + |d| + |q| && m[..|p|] == p && m[|m| - |q|..] == q && m[|p|..|m| - |q|] == d
  {
    var m := p + d + q;
    assert m[..|p|] == p;
    assert m[|m| - |q|..] == q;
    assert m[|p|..|m| - |q|] == d;
  }

  /** The message of a face event, as its fixed prefix, its number and its fixed suffix. */
  lemma MessageParts(e: Emission)
    requires !e.ObjectDetected?
    ensures var n := if e.MultipleFaces? then e.count else e.durationSeconds;
      var prefix := if e.NoFace? then "No face detected (" else if e.LookAway? then "Looking away (" else "Multiple faces detected (";
      var suffix := if e.MultipleFaces? then ")" else "s)";
      Message(e) == prefix + NatToString(n) + suffix
  {
  }

  /** The number a duration or face-count message shows reads back as the event's number. */
  lemma MessageShowsNumber(e: Emission)
    requires !e.ObjectDetected?
    ensures var n := if e.MultipleFaces? then e.count else e.durationSeconds;
      var prefix := if e.NoFace? then "No face detected (" else if e.LookAway? then "Looking away (" else "Multiple faces detected (";
      var suffix := if e.MultipleFaces? then ")" else "s)";
      var m := Message(e);
      |prefix| + |suffix| < |m| && m[..|prefix|] == prefix && m[|m| - |suffix|..] == suffix &&
      IsDigits(m[|prefix|..|m| - |suffix|]) && DecimalValue(m[|prefix|..|m| - |suffix|]) == n
  {
    var n := if e.MultipleFaces? then e.count else e.durationSeconds;
    var prefix := if e.NoFace? then "No face detected (" else if e.LookAway? then "Looking away (" else "Multiple faces detected (";
    var suffix := if e.MultipleFaces? then ")" else "s)";
    MessageParts(e);
    ThreeParts(prefix, NatToString(n), suffix);
    DecimalValueOfNatToString(n);
  }

  /** The alert level: `warn` for an object, `error` for the three face events. */
  function LevelOf(e: Emission): (level: Level)
    ensures level == Warn <==> e.ObjectDetected?
    ensures level != Info
  {
    if e.ObjectDetected? then Warn else Error
  }

  /** The alert `raiseEvent` pushes for an event. */
  function AlertFor(ev: Event, stamp: Stamp): Alert {
    Alert(stamp.alertId, LevelOf(ev.emission), Message(ev.emission), Some(ev.emission), stamp.now)
  }

  /** `AlertFor` at a fixed stamp, as a function of the event. */
  function AlertMaker(stamp: Stamp): Event -> Alert {
    ev => AlertFor(ev, stamp)
  }

  /** The alert list after pushing `alertOf` of each of `evs`, one at a time, in order. */
  function PushAllWith(prev: seq<Alert>, evs: seq<Event>, alertOf: Event -> Alert): seq<Alert>
    decreases |evs|
  {
    if evs == [] then prev
    else Prepend(alertOf(evs[|evs| - 1]), PushAllWith(prev, evs[..|evs| - 1], alertOf))
  }

  /** The alert list after pushing the alerts of `evs`, one at a time, in order. */
  function PushAll(prev: seq<Alert>, evs: seq<Event>, stamp: Stamp): seq<Alert> {
    PushAllWith(prev, evs, AlertMaker(stamp))
  }

  /** Pushing one alert per event leaves them newest first, then the earlier list, cut to six. */
  lemma {:induction false} PushAllWithAt(prev: seq<Alert>, evs: seq<Event>, alertOf: Event -> Alert)
    requires |prev| <= MaxAlerts
    ensures var r := PushAllWith(prev, evs, alertOf);
      |r| == Min(|prev| + |evs|, MaxAlerts) &&
      forall i :: 0 <= i < |r| ==> r[i] == if i < |evs| then alertOf(evs[|evs| - 1 - i]) else prev[i - |evs|]
    decreases |evs|
  {
    if evs != [] {
      var init := evs[..|evs| - 1];
      PushAllWithAt(prev, init, alertOf);
      var inner := PushAllWith(prev, init, alertOf);
      var newest := alertOf(evs[|evs| - 1]);
      var r := PushAllWith(prev, evs, alertOf);
      assert r == Prepend(newest, inner);
      forall i | 0 <= i < |r|
        ensures r[i] == if i < |evs| then alertOf(evs[|evs| - 1 - i]) else prev[i - |evs|]
      {
        PrependAt(newest, inner, i);
        if 0 < i < |evs| {
          assert init[|init| - 1 - (i - 1)] == evs[|evs| - 1 - i];
        }
      }
    }
  }

  /**
   * After a batch of events the alert list holds their alerts newest first, then what was
   * there before, cut to six entries.
   */
  lemma AlertsAfterEvents(prev: seq<Alert>, evs: seq<Event>, stamp: Stamp)
    requires |prev| <= MaxAlerts
    ensures var r := PushAll(prev, evs, stamp);
      |r| == Min(|prev| + |evs|, MaxAlerts) &&
      forall i :: 0 <= i < |r| ==> r[i] == if i < |evs| then AlertFor(evs[|evs| - 1 - i], stamp) else prev[i - |evs|]
  {
    PushAllWithAt(prev, evs, AlertMaker(stamp));
  }

  lemma PushAllAppend(prev: seq<Alert>, evs: seq<Event>, ev: Event, stamp: Stamp)
    ensures PushAll(prev, evs + [ev], stamp) == Prepend(AlertFor(ev, stamp), PushAll(prev, evs, stamp))
  {
    assert (evs + [ev])[..|evs|] == evs;
  }

  /** The events of a tick, each stamped with the session, the candidate and the tick's time, in order. */
  function Stamped(interviewId: string, candidateName: string, fired: seq<Emission>, stamp: Stamp): seq<Event>
    decreases |fired|
  {
    if fired == [] then []
    else
      var last := Event(interviewId, candidateName, fired[|fired| - 1], stamp.now);
      Stamped(interviewId, candidateName, fired[..|fired| - 1], stamp) + [last]
  }

  lemma StampedAppend(interviewId: string, candidateName: string, fired: seq<Emission>, e: Emission, stamp: Stamp)
    ensures Stamped(interviewId, candidateName, fired + [e], stamp) ==
      Stamped(interviewId, candidateName, fired, stamp) + [Event(interviewId, candidateName, e, stamp.now)]
  {
    assert (fired + [e])[..|fired|] == fired;
  }

  /** Stamping keeps the events in order: the i-th event carries the i-th emission. */
  lemma {:induction false} StampedInOrder(interviewId: string, candidateName: string, fired: seq<Emission>, stamp: Stamp)
    ensures var evs := Stamped(interviewId, candidateName, fired, stamp);
      |evs| == |fired| &&
      forall i :: 0 <= i < |fired| ==> evs[i] == Event(interviewId, candidateName, fired[i], stamp.now)
    decreases |fired|
  {
    if fired != [] {
      StampedInOrder(interviewId, candidateName, fired[..|fired| - 1], stamp);
    }
  }

  /**
   * The fan-out bookkeeping of a tick so far: `emitted` are the stamped `fired` events, each
   * handed to persistence once, in order, and each with its alert pushed.
   */
  ghost predicate Fanout(interviewId: string, candidateName: string, alerts0: seq<Alert>, posted0: seq<Event>,
                         alerts: seq<Alert>, posted: seq<Event>, fired: seq<Emission>, emitted: seq<Event>, stamp: Stamp)
  {
    emitted == Stamped(interviewId, candidateName, fired, stamp) &&
    posted == posted0 + emitted &&
    alerts == PushAll(alerts0, emitted, stamp) &&
    |alerts| <= MaxAlerts
  }

  lemma FanoutStep(interviewId: string, candidateName: string, alerts0: seq<Alert>, posted0: seq<Event>,
                   alerts: seq<Alert>, posted: seq<Event>, fired: seq<Emission>, emitted: seq<Event>, stamp: Stamp,
                   e: Emission, ev: Event, alerts': seq<Alert>, posted': seq<Event>)
    requires Fanout(interviewId, candidateName, alerts0, posted0, alerts, posted, fired, emitted, stamp)
    requires ev == Event(interviewId, candidateName, e, stamp.now)
    requires posted' == posted + [ev]
    requires alerts' == Prepend(AlertFor(ev, stamp), alerts)
    ensures Fanout(interviewId, candidateName, alerts0, posted0, alerts', posted', fired + [e], emitted + [ev], stamp)
  {
    StampedAppend(interviewId, candidateName, fired, e, stamp);
    PushAllAppend(alerts0, emitted, ev, stamp);
  }

  lemma {:induction false} StampedConcat(interviewId: string, candidateName: string, f: seq<Emission>, g: seq<Emission>, stamp: Stamp)
    ensures Stamped(interviewId, candidateName, f + g, stamp) ==
      Stamped(interviewId, candidateName, f, stamp) + Stamped(interviewId, candidateName, g, stamp)
    decreases |g|
  {
    if g != [] {
      var init := g[..|g| - 1];
      assert f + g == (f + init) + [g[|g| - 1]];
      StampedAppend(interviewId, candidateName, f + init, g[|g| - 1], stamp);
      StampedConcat(interviewId, candidateName, f, init, stamp);
    } else {
      assert f + g == f;
    }
  }

  lemma {:induction false} PushAllConcat(prev: seq<Alert>, d: seq<Event>, e: seq<Event>, stamp: Stamp)
    ensures PushAll(prev, d + e, stamp) == PushAll(PushAll(prev, d, stamp), e, stamp)
    decreases |e|
  {
    if e != [] {
      var init := e[..|e| - 1];
      assert d + e == (d + init) + [e[|e| - 1]];
      PushAllAppend(prev, d + init, e[|e| - 1], stamp);
      PushAllConcat(prev, d, init, stamp);
    } else {
      assert d + e == d;
    }
  }

  /** Two pieces of fan-out bookkeeping, one after the other, make one. */
  lemma FanoutCompose(interviewId: string, candidateName: string, alerts0: seq<Alert>, posted0: seq<Event>,
                      alerts1: seq<Alert>, posted1: seq<Event>, alerts2: seq<Alert>, posted2: seq<Event>,
                      f1: seq<Emission>, e1: seq<Event>, f2: seq<Emission>, e2: seq<Event>, stamp: Stamp)
    requires Fanout(interviewId, candidateName, alerts0, posted0, alerts1, posted1, f1, e1, stamp)
    requires Fanout(interviewId, candidateName, alerts1, posted1, alerts2, posted2, f2, e2, stamp)
    ensures Fanout(interviewId, candidateName, alerts0, posted0, alerts2, posted2, f1 + f2, e1 + e2, stamp)
  {
    StampedConcat(interviewId, candidateName, f1, f2, stamp);
    PushAllConcat(alerts0, e1, e2, stamp);
    AppendAssociative(posted0, e1, e2);
  }

  lemma AppendAssociative<T>(a: seq<T>, b: seq<T>, c: seq<T>)
    ensures (a + b) + c == a + (b + c)
  {
  }

  class Engine {
    const interviewId: string
    /**
     * The candidate name the detection timers captured when they were started. Editing the name
     * field afterwards re-renders the page but does not restart the timers, so the ticks they
     * drive keep raising events with this name.
     */
    const candidateName: string
    var noFaceCounter: nat
    var lookAwayCounter: nat
    var multipleFaceCounter: nat
    var lastFaceCount: nat
    /** The alert list, newest first. */
    var alerts: seq<Alert>
    /** Every event handed to the persistence collaborator, oldest first. */
    var posted: seq<Event>

    function State(): Debounce.Counters
      reads this
    {
      Debounce.Counters(noFaceCounter, lookAwayCounter, multipleFaceCounter, lastFaceCount)
    }

    ghost predicate Valid()
      reads this
    {
      Debounce.Bounded(State()) && |alerts| <= MaxAlerts
    }

    constructor (interviewId: string, candidateName: string)
      ensures Valid()
      ensures this.interviewId == interviewId && this.candidateName == candidateName
      ensures State() == Debounce.Initial && alerts == [] && posted == []
    {
      this.interviewId := interviewId;
      this.candidateName := candidateName;
      noFaceCounter, lookAwayCounter, multipleFaceCounter, lastFaceCount := 0, 0, 0, 0;
      alerts, posted := [], [];
    }

    method PushAlert(level: Level, message: string, details: Option<Emission>, stamp: Stamp)
      modifies this`alerts
      ensures alerts == Prepend(Alert(stamp.alertId, level, message, details, stamp.now), old(alerts))
    {
      var item := Alert(stamp.alertId, level, message, details, stamp.now);
      alerts := Prepend(item, alerts);
    }

    /** Builds the event, hands it to the persistence collaborator and pushes its alert. */
    method RaiseEvent(e: Emission, stamp: Stamp) returns (ev: Event)
      modifies this`alerts, this`posted
      ensures ev == Event(interviewId, candidateName, e, stamp.now)
      ensures posted == old(posted) + [ev]
      ensures alerts == Prepend(AlertFor(ev, stamp), old(alerts))
    {
      ev := Event(interviewId, candidateName, e, stamp.now);
      posted := posted + [ev];
      PushAlert(LevelOf(e), Message(e), Some(e), stamp);
    }

    /** The multi-face block: count consecutive multi-face ticks and raise `multiple_faces` on the third. */
    method CheckMultipleFaces(faceCountGood: nat, stamp: Stamp) returns (fired: seq<Emission>, emitted: seq<Event>)
      requires |alerts| <= MaxAlerts
      modifies this`multipleFaceCounter, this`alerts, this`posted
      ensures multipleFaceCounter ==
        if faceCountGood > 1 && old(multipleFaceCounter) + 1 < Debounce.MultipleFaceConsecutive then old(multipleFaceCounter) + 1 else 0
      ensures fired ==
        if faceCountGood > 1 && old(multipleFaceCounter) + 1 >= Debounce.MultipleFaceConsecutive then [MultipleFaces(faceCountGood)] else []
      ensures Fanout(interviewId, candidateName, old(alerts), old(posted), alerts, posted, fired, emitted, stamp)
    {
      fired, emitted := [], [];
      if faceCountGood > 1 {
        multipleFaceCounter := multipleFaceCounter + 1;
        if multipleFaceCounter >= Debounce.MultipleFaceConsecutive {
          multipleFaceCounter := 0;
          var e := MultipleFaces(faceCountGood);
          var ev := RaiseEvent(e, stamp);
          FanoutStep(interviewId, candidateName, old(alerts), old(posted), old(alerts), old(posted), [], [], stamp, e, ev, alerts, posted);
          fired, emitted := [e], [ev];
        }
      } else {
        multipleFaceCounter := 0;
      }
    }

    /** The look-away condition: the first good face's centre is too far from the middle of the canvas. */
    method IsLookingAway(canvas: Frame, goodFaces: seq<Candidate>) returns (lookingAway: bool)
      ensures lookingAway <==> |goodFaces| > 0 && LooksAway(canvas, goodFaces[0])
    {
      lookingAway := false;
      if |goodFaces| > 0 {
        var cx := CenterX(goodFaces[0]);
        if cx.Some? {
          lookingAway := GazeOffset(canvas, cx.value) > GazeOffsetLimit;
        }
      }
    }

    /** Raise `no_face` and re-arm once the absence has lasted longer than the threshold. */
    method FireNoFace(stamp: Stamp) returns (fired: seq<Emission>, emitted: seq<Event>)
      requires |alerts| <= MaxAlerts
      modifies this`noFaceCounter, this`alerts, this`posted
      ensures State() == Debounce.RearmNoFace(old(State()))
      ensures fired == Debounce.NoFaceFired(old(State()))
      ensures Fanout(interviewId, candidateName, old(alerts), old(posted), alerts, posted, fired, emitted, stamp)
    {
      fired, emitted := [], [];
      var noFaceSec := Debounce.Seconds(noFaceCounter);
      if noFaceSec > Debounce.NoFaceThresholdSec as real {
        noFaceCounter := 0;
        var e := NoFace(Debounce.Round(noFaceSec));
        var ev := RaiseEvent(e, stamp);
        FanoutStep(interviewId, candidateName, old(alerts), old(posted), old(alerts), old(posted), [], [], stamp, e, ev, alerts, posted);
        fired, emitted := [e], [ev];
      }
    }

    /** Raise `look_away` and re-arm once looking away has lasted longer than the threshold. */
    method FireLookAway(stamp: Stamp) returns (fired: seq<Emission>, emitted: seq<Event>)
      requires |alerts| <= MaxAlerts
      modifies this`lookAwayCounter, this`alerts, this`posted
      ensures State() == Debounce.RearmLookAway(old(State()))
      ensures fired == Debounce.LookAwayFired(old(State()))
      ensures Fanout(interviewId, candidateName, old(alerts), old(posted), alerts, posted, fired, emitted, stamp)
    {
      fired, emitted := [], [];
      var lookAwaySec := Debounce.Seconds(lookAwayCounter);
      if lookAwaySec > Debounce.LookAwayThresholdSec as real {
        lookAwayCounter := 0;
        var e := LookAway(Debounce.Round(lookAwaySec));
        var ev := RaiseEvent(e, stamp);
        FanoutStep(interviewId, candidateName, old(alerts), old(posted), old(alerts), old(posted), [], [], stamp, e, ev, alerts, posted);
        fired, emitted := [e], [ev];
      }
    }

    /**
     * One run of the face check. When the detector is not ready or throws, nothing changes;
     * otherwise the counters move as `Debounce.Step` says and its events are raised in order.
     */
    method FaceTick(reading: FaceReading, stamp: Stamp) returns (emitted: seq<Event>)
      requires Valid()
      modifies this`noFaceCounter, this`lookAwayCounter, this`multipleFaceCounter, this`lastFaceCount
      modifies this`alerts, this`posted
      ensures Valid()
      ensures !reading.FacesDetected? ==> emitted == [] && State() == old(State()) && alerts == old(alerts) && posted == old(posted)
      ensures reading.FacesDetected? ==>
        var o := Debounce.Step(old(State()), Debounce.Observe(CanvasFrame(reading.videoWidth, reading.videoHeight), reading.predictions));
        State() == o.next && Fanout(interviewId, candidateName, old(alerts), old(posted), alerts, posted, o.fired, emitted, stamp)
    {
      emitted := [];
      if !reading.FacesDetected? {
        return;
      }
      var canvas := CanvasFrame(reading.videoWidth, reading.videoHeight);
      var predictions := reading.predictions;
      var goodFaces := GoodFaces(canvas, predictions);
      var lookingAway := IsLookingAway(canvas, goodFaces);
      assert Debounce.Observe(canvas, predictions) == Debounce.Signals(|predictions|, |goodFaces|, lookingAway);
      emitted := Advance(|predictions|, |goodFaces|, lookingAway, stamp);
    }

    /**
     * The counter updates and raises of one completed face tick, given its raw count, good
     * count and look-away condition, in the order the tick performs them.
     */
    method Advance(rawCount: nat, faceCountGood: nat, lookingAway: bool, stamp: Stamp) returns (emitted: seq<Event>)
      requires Valid()
      modifies this`noFaceCounter, this`lookAwayCounter, this`multipleFaceCounter, this`lastFaceCount
      modifies this`alerts, this`posted
      ensures Valid()
      ensures var o := Debounce.Step(old(State()), Debounce.Signals(rawCount, faceCountGood, lookingAway));
        State() == o.next && Fanout(interviewId, candidateName, old(alerts), old(posted), alerts, posted, o.fired, emitted, stamp)
    {
      ghost var c0, sig := State(), Debounce.Signals(rawCount, faceCountGood, lookingAway);
      ghost var a0, p0 := alerts, posted;
      var multiFired, multiEmitted := Count(rawCount, faceCountGood, lookingAway, stamp);
      ghost var a1, p1 := alerts, posted;
      var fired, fireEmitted := Fire(stamp);
      lastFaceCount := rawCount;
      emitted := multiEmitted + fireEmitted;
      FanoutCompose(interviewId, candidateName, a0, p0, a1, p1, alerts, posted, multiFired, multiEmitted, fired, fireEmitted, stamp);
      Debounce.StepInPhases(c0, sig);
      Debounce.StepCounters(c0, sig);
    }

    /** The counting half of a face tick: the absence count, the multi-face block, the look-away count. */
    method Count(rawCount: nat, faceCountGood: nat, lookingAway: bool, stamp: Stamp) returns (fired: seq<Emission>, emitted: seq<Event>)
      requires |alerts| <= MaxAlerts
      modifies this`noFaceCounter, this`lookAwayCounter, this`multipleFaceCounter
      modifies this`alerts, this`posted
      ensures State() == Debounce.Counted(old(State()), Debounce.Signals(rawCount, faceCountGood, lookingAway))
      ensures fired == Debounce.MultiFired(old(State()), Debounce.Signals(rawCount, faceCountGood, lookingAway))
      ensures Fanout(interviewId, candidateName, old(alerts), old(posted), alerts, posted, fired, emitted, stamp)
    {
      if rawCount == 0 {
        noFaceCounter := noFaceCounter + 1;
      } else {
        noFaceCounter := 0;
      }

      fired, emitted := CheckMultipleFaces(faceCountGood, stamp);

      if lookingAway {
        lookAwayCounter := lookAwayCounter + 1;
      } else {
        lookAwayCounter := 0;
      }
    }

    /** The firing half of a face tick: `no_face`, then `look_away`, each re-arming its counter. */
    method Fire(stamp: Stamp) returns (fired: seq<Emission>, emitted: seq<Event>)
      requires |alerts| <= MaxAlerts
      modifies this`noFaceCounter, this`lookAwayCounter, this`alerts, this`posted
      ensures State() == Debounce.Rearmed(old(State()))
      ensures fired == Debounce.ThresholdFired(old(State()))
      ensures Fanout(interviewId, candidateName, old(alerts), old(posted), alerts, posted, fired, emitted, stamp)
    {
      ghost var a0, p0 := alerts, posted;
      var noFaceFired, noFaceEmitted := FireNoFace(stamp);
      ghost var a1, p1 := alerts, posted;
      var lookFired, lookEmitted := FireLookAway(stamp);
      fired, emitted := noFaceFired + lookFired, noFaceEmitted + lookEmitted;
      FanoutCompose(interviewId, candidateName, a0, p0, a1, p1, alerts, posted, noFaceFired, noFaceEmitted, lookFired, lookEmitted, stamp);
    }

    /** One pass of the object loop: raise `object_detected` for the prediction when it is flagged. */
    method CheckObject(p: ObjectPrediction, stamp: Stamp) returns (fired: seq<Emission>, emitted: seq<Event>)
      requires |alerts| <= MaxAlerts
      modifies this`alerts, this`posted
      ensures fired == if IsFlagged(p) then [Report(p)] else []
      ensures Fanout(interviewId, candidateName, old(alerts), old(posted), alerts, posted, fired, emitted, stamp)
    {
      fired, emitted := [], [];
      var cls := ToLower(p.className);
      var conf := Confidence(p);
      if cls in FlaggedLabels && conf > ObjectConfidenceFloor {
        var e := ObjectDetected(cls, RoundHundredths(conf));
        var ev := RaiseEvent(e, stamp);
        FanoutStep(interviewId, candidateName, old(alerts), old(posted), old(alerts), old(posted), [], [], stamp, e, ev, alerts, posted);
        fired, emitted := [e], [ev];
      }
    }

    /** One run of the object check: one `object_detected` event per flagged prediction, in order. */
    method ObjectTick(reading: ObjectReading, stamp: Stamp) returns (emitted: seq<Event>)
      requires Valid()
      modifies this`alerts, this`posted
      ensures Valid()
      ensures Fanout(interviewId, candidateName, old(alerts), old(posted), alerts, posted,
                     if reading.ObjectsDetected? then ObjectEmissions(reading.predictions) else [], emitted, stamp)
    {
      emitted := [];
      if !reading.ObjectsDetected? {
        return;
      }
      var predictions := reading.predictions;
      var i := 0;
      while i < |predictions|
        invariant 0 <= i <= |predictions|
        invariant Fanout(interviewId, candidateName, old(alerts), old(posted), alerts, posted,
                         ObjectEmissions(predictions[..i]), emitted, stamp)
      {
        ghost var a, q := alerts, posted;
        var fired, evs := CheckObject(predictions[i], stamp);
        FanoutCompose(interviewId, candidateName, old(alerts), old(posted), a, q, alerts, posted,
                      ObjectEmissions(predictions[..i]), emitted, fired, evs, stamp);
        ObjectEmissionsExtend(predictions, i);
        emitted := emitted + evs;
        i := i + 1;
      }
      assert predictions[..i] == predictions;
    }
  }
}
