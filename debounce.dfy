/**
 * The debouncing state machine of the face tick, as a pure transition over the counter record:
 * what one completed tick does to the counters and which events it fires, and what a run of
 * ticks does. The `Monitor.Engine` class performs the same transition in place.
 */
module Debounce {
  import opened Events
  import opened FaceGeometry

  const FaceCheckIntervalMs: nat := 300
  const NoFaceThresholdSec: nat := 10
  const LookAwayThresholdSec: nat := 5
  const MultipleFaceConsecutive: nat := 3

  /** The counter value at which the duration first exceeds the threshold (see the threshold lemmas). */
  const NoFaceFireTicks: nat := 34
  const LookAwayFireTicks: nat := 17

  /** The detection record: `noFaceCounter`, `lookAwayCounter`, `multipleFaceCounter`, `lastFaceCount`. */
  datatype Counters = Counters(noFace: nat, lookAway: nat, multipleFace: nat, lastFaceCount: nat)

  const Initial: Counters := Counters(0, 0, 0, 0)

  /** What one completed tick observes: the raw count, the good count, and the look-away condition. */
  datatype Signals = Signals(rawCount: nat, goodCount: nat, lookingAway: bool)

  datatype Outcome = Outcome(next: Counters, fired: seq<Emission>)

  /** Signals that can come from a real observation: good faces are raw faces, and looking away needs a good face. */
  predicate Coherent(s: Signals) {
    s.goodCount <= s.rawCount && (s.lookingAway ==> s.goodCount >= 1)
  }

  /** The counter bounds every completed tick leaves behind. */
  predicate Bounded(c: Counters) {
    c.noFace < NoFaceFireTicks && c.lookAway < LookAwayFireTicks && c.multipleFace < MultipleFaceConsecutive
  }

  /** `counter * (FACE_CHECK_INTERVAL_MS / 1000)`, exactly. */
  function Seconds(ticks: nat): real {
    ticks as real * (FaceCheckIntervalMs as real / 1000.0)
  }

  /** `Math.round` of a non-negative number: the nearest integer, halves rounded up. */
  function Round(x: real): (r: nat)
    requires x >= 0.0
    ensures r as real - 0.5 <= x < r as real + 0.5
  {
    (x + 0.5).Floor
  }

  /** The three conditions of a tick, read off the predictions and the canvas. */
  function Observe(frame: Frame, preds: seq<Candidate>): (s: Signals)
    ensures Coherent(s)
    ensures s.rawCount == |preds|
    ensures s.goodCount == 0 <==> forall c :: c in preds ==> !IsGoodFace(frame, c)
  {
    var good := GoodFaces(frame, preds);
    assert good != [] ==> good[0] in good;
    Signals(|preds|, |good|, |good| > 0 && LooksAway(frame, good[0]))
  }

  /**
   * One completed face tick: advance or reset each counter, then fire and re-arm what crossed
   * its threshold. A tick fires at most one event of each face type and records the raw count.
   */
  function Step(c: Counters, s: Signals): (o: Outcome)
    ensures |o.fired| <= 3
    ensures forall e :: e in o.fired ==> !e.ObjectDetected?
    ensures o.next.lastFaceCount == s.rawCount
  {
    var noFace := if s.rawCount == 0 then c.noFace + 1 else 0;
    var multi := if s.goodCount > 1 then c.multipleFace + 1 else 0;
    var multiFires := s.goodCount > 1 && multi >= MultipleFaceConsecutive;
    var lookAway := if s.lookingAway then c.lookAway + 1 else 0;
    var noFaceFires := Seconds(noFace) > NoFaceThresholdSec as real;
    var lookAwayFires := Seconds(lookAway) > LookAwayThresholdSec as real;
    Outcome(
      Counters(
        if noFaceFires then 0 else noFace,
        if lookAwayFires then 0 else lookAway,
        if multiFires then 0 else multi,
        s.rawCount),
      (if multiFires then [MultipleFaces(s.goodCount)] else []) +
      (if noFaceFires then [NoFace(Round(Seconds(noFace)))] else []) +
      (if lookAwayFires then [LookAway(Round(Seconds(lookAway)))] else []))
  }

  /** `noFaceSec > NO_FACE_THRESHOLD_SEC` holds from the 34th tick on. */
  lemma NoFaceThreshold(ticks: nat)
    ensures Seconds(ticks) > NoFaceThresholdSec as real <==> ticks >= NoFaceFireTicks
    ensures ticks == NoFaceFireTicks ==> Round(Seconds(ticks)) == NoFaceThresholdSec
  {
    if ticks == NoFaceFireTicks {
      assert Seconds(ticks) + 0.5 == 10.7;
    }
  }

  /** `lookAwaySec > LOOKAWAY_THRESHOLD_SEC` holds from the 17th tick on. */
  lemma LookAwayThreshold(ticks: nat)
    ensures Seconds(ticks) > LookAwayThresholdSec as real <==> ticks >= LookAwayFireTicks
    ensures ticks == LookAwayFireTicks ==> Round(Seconds(ticks)) == LookAwayThresholdSec
  {
    if ticks == LookAwayFireTicks {
      assert Seconds(ticks) + 0.5 == 5.6;
    }
  }

  /** The events of a tick, given which of the three detectors fire, in the order the tick raises them. */
  function Fired(multiFires: bool, goodCount: nat, noFaceFires: bool, lookAwayFires: bool): seq<Emission> {
    (if multiFires then [MultipleFaces(goodCount)] else []) +
    (if noFaceFires then [NoFace(NoFaceThresholdSec)] else []) +
    (if lookAwayFires then [LookAway(LookAwayThresholdSec)] else [])
  }

  lemma {:induction false} CountFired(multiFires: bool, goodCount: nat, noFaceFires: bool, lookAwayFires: bool, eventType: string)
    ensures CountType(Fired(multiFires, goodCount, noFaceFires, lookAwayFires), eventType) ==
      (if multiFires && eventType == "multiple_faces" then 1 else 0) +
      (if noFaceFires && eventType == "no_face" then 1 else 0) +
      (if lookAwayFires && eventType == "look_away" then 1 else 0)
  {
    var a := if multiFires then [MultipleFaces(goodCount)] else [];
    var b := if noFaceFires then [NoFace(NoFaceThresholdSec)] else [];
    var d := if lookAwayFires then [LookAway(LookAwayThresholdSec)] else [];
    CountTypeConcat(a, b, eventType);
    CountTypeConcat(a + b, d, eventType);
  }

  /**
   * From a bounded state, a tick fires `multiple_faces` on the 3rd consecutive multi-face tick,
   * `no_face` (10 s) on the 34th consecutive absent tick and `look_away` (5 s) on the 17th
   * consecutive looking-away tick, in that order, and nothing else.
   */
  lemma StepFired(c: Counters, s: Signals)
    requires Bounded(c)
    ensures Step(c, s).fired == Fired(
      s.goodCount > 1 && c.multipleFace == MultipleFaceConsecutive - 1,
      s.goodCount,
      s.rawCount == 0 && c.noFace == NoFaceFireTicks - 1,
      s.lookingAway && c.lookAway == LookAwayFireTicks - 1)
  {
    NoFaceThreshold(if s.rawCount == 0 then c.noFace + 1 else 0);
    LookAwayThreshold(if s.lookingAway then c.lookAway + 1 else 0);
  }

  /** The three counters, as `Step` sets them, in terms of the old value and the tick's signals. */
  lemma StepCounters(c: Counters, s: Signals)
    requires Bounded(c)
    ensures var n := Step(c, s).next;
      Bounded(n) &&
      n.lastFaceCount == s.rawCount &&
      n.noFace == (if s.rawCount == 0 && c.noFace + 1 < NoFaceFireTicks then c.noFace + 1 else 0) &&
      n.lookAway == (if s.lookingAway && c.lookAway + 1 < LookAwayFireTicks then c.lookAway + 1 else 0) &&
      n.multipleFace == (if s.goodCount > 1 && c.multipleFace + 1 < MultipleFaceConsecutive then c.multipleFace + 1 else 0)
  {
    NoFaceThreshold(if s.rawCount == 0 then c.noFace + 1 else 0);
    LookAwayThreshold(if s.lookingAway then c.lookAway + 1 else 0);
  }

  /**
   * The counting half of a face tick: the absence count advances or resets, the multi-face
   * block counts and re-arms on its third tick, and the look-away count advances or resets.
   */
  function Counted(c: Counters, s: Signals): Counters {
    var multi := if s.goodCount > 1 then c.multipleFace + 1 else 0;
    Counters(
      if s.rawCount == 0 then c.noFace + 1 else 0,
      if s.lookingAway then c.lookAway + 1 else 0,
      if multi >= MultipleFaceConsecutive then 0 else multi,
      c.lastFaceCount)
  }

  /** The event the multi-face block raises, if any. */
  function MultiFired(c: Counters, s: Signals): seq<Emission> {
    var multi := if s.goodCount > 1 then c.multipleFace + 1 else 0;
    if s.goodCount > 1 && multi >= MultipleFaceConsecutive then [MultipleFaces(s.goodCount)] else []
  }

  /** The `no_face` block: the absence count re-arms once past its threshold. */
  function RearmNoFace(c: Counters): Counters {
    if Seconds(c.noFace) > NoFaceThresholdSec as real then c.(noFace := 0) else c
  }

  /** The event the `no_face` block raises, if any, with the rounded duration. */
  function NoFaceFired(c: Counters): seq<Emission> {
    if Seconds(c.noFace) > NoFaceThresholdSec as real then [NoFace(Round(Seconds(c.noFace)))] else []
  }

  /** The `look_away` block: the look-away count re-arms once past its threshold. */
  function RearmLookAway(c: Counters): Counters {
    if Seconds(c.lookAway) > LookAwayThresholdSec as real then c.(lookAway := 0) else c
  }

  /** The event the `look_away` block raises, if any, with the rounded duration. */
  function LookAwayFired(c: Counters): seq<Emission> {
    if Seconds(c.lookAway) > LookAwayThresholdSec as real then [LookAway(Round(Seconds(c.lookAway)))] else []
  }

  /** The firing half: the `no_face` block, then the `look_away` block. */
  function Rearmed(c: Counters): Counters {
    RearmLookAway(RearmNoFace(c))
  }

  /** The events of the firing half, in the order it raises them. */
  function ThresholdFired(c: Counters): seq<Emission> {
    NoFaceFired(c) + LookAwayFired(RearmNoFace(c))
  }

  /**
   * The face tick's blocks, performed one after the other, are `Step`: the counting half, then
   * the firing half on the counts it left, then the face count is recorded.
   */
  lemma StepInPhases(c: Counters, s: Signals)
    ensures Step(c, s) == Outcome(
      Rearmed(Counted(c, s)).(lastFaceCount := s.rawCount),
      MultiFired(c, s) + ThresholdFired(Counted(c, s)))
  {
    var a := MultiFired(c, s);
    var n := Counted(c, s);
    var b := NoFaceFired(n);
    var d := LookAwayFired(RearmNoFace(n));
    assert RearmNoFace(n).lookAway == n.lookAway;
    assert Step(c, s).fired == a + b + d;
    assert a + b + d == a + (b + d);
  }

  /**
   * `no_face` fires on a tick exactly when the tick is absent and completes the 34th absent
   * tick in a row; it fires at most once, and always with a duration of 10 seconds.
   */
  lemma NoFaceFiresExactly(c: Counters, s: Signals)
    requires Bounded(c)
    ensures var fired := Step(c, s).fired;
      var fires := s.rawCount == 0 && c.noFace == NoFaceFireTicks - 1;
      CountType(fired, "no_face") == (if fires then 1 else 0) &&
      (fires ==> NoFace(NoFaceThresholdSec) in fired) &&
      (forall e :: e in fired && e.NoFace? ==> e.durationSeconds == NoFaceThresholdSec)
  {
    StepFired(c, s);
    StepCounters(c, s);
    CountFired(s.goodCount > 1 && c.multipleFace == MultipleFaceConsecutive - 1, s.goodCount,
      s.rawCount == 0 && c.noFace == NoFaceFireTicks - 1, s.lookingAway && c.lookAway == LookAwayFireTicks - 1, "no_face");
  }

  /** `look_away` fires exactly on the 17th looking-away tick in a row, once, with a duration of 5 seconds. */
  lemma LookAwayFiresExactly(c: Counters, s: Signals)
    requires Bounded(c)
    ensures var fired := Step(c, s).fired;
      var fires := s.lookingAway && c.lookAway == LookAwayFireTicks - 1;
      CountType(fired, "look_away") == (if fires then 1 else 0) &&
      (fires ==> LookAway(LookAwayThresholdSec) in fired) &&
      (forall e :: e in fired && e.LookAway? ==> e.durationSeconds == LookAwayThresholdSec)
  {
    StepFired(c, s);
    StepCounters(c, s);
    CountFired(s.goodCount > 1 && c.multipleFace == MultipleFaceConsecutive - 1, s.goodCount,
      s.rawCount == 0 && c.noFace == NoFaceFireTicks - 1, s.lookingAway && c.lookAway == LookAwayFireTicks - 1, "look_away");
  }

  /**
   * `multiple_faces` fires exactly on the 3rd multi-face tick in a row, once, carrying that
   * tick's good count; a tick with at most one good face resets the count.
   */
  lemma MultipleFacesFiresExactly(c: Counters, s: Signals)
    requires Bounded(c)
    ensures var o := Step(c, s);
      var fires := s.goodCount > 1 && c.multipleFace == MultipleFaceConsecutive - 1;
      CountType(o.fired, "multiple_faces") == (if fires then 1 else 0) &&
      (fires ==> MultipleFaces(s.goodCount) in o.fired) &&
      (forall e :: e in o.fired && e.MultipleFaces? ==> e.count == s.goodCount) &&
      (s.goodCount <= 1 ==> o.next.multipleFace == 0)
  {
    StepFired(c, s);
    StepCounters(c, s);
    CountFired(s.goodCount > 1 && c.multipleFace == MultipleFaceConsecutive - 1, s.goodCount,
      s.rawCount == 0 && c.noFace == NoFaceFireTicks - 1, s.lookingAway && c.lookAway == LookAwayFireTicks - 1, "multiple_faces");
  }

  /**
   * A tick that fires `no_face` saw no candidate, so it fires neither `multiple_faces` nor
   * `look_away`; the face tick never fires `object_detected`.
   */
  lemma NoFaceFiresAlone(c: Counters, s: Signals)
    requires Bounded(c) && Coherent(s)
    ensures var fired := Step(c, s).fired;
      CountType(fired, "object_detected") == 0 &&
      (CountType(fired, "no_face") > 0 ==>
        CountType(fired, "multiple_faces") == 0 && CountType(fired, "look_away") == 0)
  {
    StepFired(c, s);
    var m, n, l := s.goodCount > 1 && c.multipleFace == MultipleFaceConsecutive - 1,
      s.rawCount == 0 && c.noFace == NoFaceFireTicks - 1, s.lookingAway && c.lookAway == LookAwayFireTicks - 1;
    CountFired(m, s.goodCount, n, l, "object_detected");
    CountFired(m, s.goodCount, n, l, "no_face");
    CountFired(m, s.goodCount, n, l, "multiple_faces");
    CountFired(m, s.goodCount, n, l, "look_away");
  }

  /** Ticks one after another, the events of all of them in order: at most three per tick, none of them an object event. */
  function Run(c: Counters, ss: seq<Signals>): (r: Outcome)
    ensures |r.fired| <= 3 * |ss|
    ensures forall e :: e in r.fired ==> !e.ObjectDetected?
    decreases |ss|
  {
    if ss == [] then Outcome(c, [])
    else
      var first := Step(c, ss[0]);
      var rest := Run(first.next, ss[1..]);
      Outcome(rest.next, first.fired + rest.fired)
  }

  lemma {:induction false} RunKeepsBounds(c: Counters, ss: seq<Signals>)
    requires Bounded(c)
    ensures Bounded(Run(c, ss).next)
    ensures ss != [] ==> Run(c, ss).next.lastFaceCount == ss[|ss| - 1].rawCount
    decreases |ss|
  {
    if ss != [] {
      StepCounters(c, ss[0]);
      RunKeepsBounds(Step(c, ss[0]).next, ss[1..]);
      if |ss| == 1 {
        assert Run(Step(c, ss[0]).next, ss[1..]).next == Step(c, ss[0]).next;
      } else {
        assert ss[1..][|ss[1..]| - 1] == ss[|ss| - 1];
      }
    }
  }

  /** No counter exceeds its starting value plus the number of ticks since. */
  lemma {:induction false} RunCountersWithinTicks(c: Counters, ss: seq<Signals>)
    ensures var n := Run(c, ss).next;
      n.noFace <= c.noFace + |ss| && n.lookAway <= c.lookAway + |ss| && n.multipleFace <= c.multipleFace + |ss|
    decreases |ss|
  {
    if ss != [] {
      RunCountersWithinTicks(Step(c, ss[0]).next, ss[1..]);
    }
  }

  /** A continuous absent run: n absent ticks from counter k fire `no_face` exactly (k + n) / 34 times. */
  lemma {:induction false} AbsentRun(c: Counters, ss: seq<Signals>)
    requires Bounded(c)
    requires forall i :: 0 <= i < |ss| ==> ss[i].rawCount == 0
    ensures CountType(Run(c, ss).fired, "no_face") == (c.noFace + |ss|) / NoFaceFireTicks
    ensures Run(c, ss).next.noFace == (c.noFace + |ss|) % NoFaceFireTicks
    decreases |ss|
  {
    if ss != [] {
      var first := Step(c, ss[0]);
      NoFaceFiresExactly(c, ss[0]);
      StepCounters(c, ss[0]);
      AbsentRun(first.next, ss[1..]);
      CountTypeConcat(first.fired, Run(first.next, ss[1..]).fired, "no_face");
    }
  }

  /** An absent run that reaches the threshold raises an event that is a `no_face`. */
  lemma AbsentRunRaisesNoFace(c: Counters, ss: seq<Signals>)
    requires Bounded(c)
    requires forall i :: 0 <= i < |ss| ==> ss[i].rawCount == 0
    requires c.noFace + |ss| >= NoFaceFireTicks
    ensures exists i :: 0 <= i < |Run(c, ss).fired| && Run(c, ss).fired[i].NoFace?
  {
    var fired := Run(c, ss).fired;
    AbsentRun(c, ss);
    CountTypePositive(fired, "no_face");
    var i :| 0 <= i < |fired| && EventType(fired[i]) == "no_face";
    EventTypeDetermines(fired[i], NoFace(0));
  }

  /** A run of n multi-face ticks from counter k fires `multiple_faces` exactly (k + n) / 3 times. */
  lemma {:induction false} MultipleFacesRun(c: Counters, ss: seq<Signals>)
    requires Bounded(c)
    requires forall i :: 0 <= i < |ss| ==> ss[i].goodCount > 1
    ensures CountType(Run(c, ss).fired, "multiple_faces") == (c.multipleFace + |ss|) / MultipleFaceConsecutive
    ensures Run(c, ss).next.multipleFace == (c.multipleFace + |ss|) % MultipleFaceConsecutive
    decreases |ss|
  {
    if ss != [] {
      var first := Step(c, ss[0]);
      MultipleFacesFiresExactly(c, ss[0]);
      StepCounters(c, ss[0]);
      MultipleFacesRun(first.next, ss[1..]);
      CountTypeConcat(first.fired, Run(first.next, ss[1..]).fired, "multiple_faces");
    }
  }

  /** A run of n looking-away ticks from counter k fires `look_away` exactly (k + n) / 17 times. */
  lemma {:induction false} LookAwayRun(c: Counters, ss: seq<Signals>)
    requires Bounded(c)
    requires forall i :: 0 <= i < |ss| ==> ss[i].lookingAway
    ensures CountType(Run(c, ss).fired, "look_away") == (c.lookAway + |ss|) / LookAwayFireTicks
    ensures Run(c, ss).next.lookAway == (c.lookAway + |ss|) % LookAwayFireTicks
    decreases |ss|
  {
    if ss != [] {
      var first := Step(c, ss[0]);
      LookAwayFiresExactly(c, ss[0]);
      StepCounters(c, ss[0]);
      LookAwayRun(first.next, ss[1..]);
      CountTypeConcat(first.fired, Run(first.next, ss[1..]).fired, "look_away");
    }
  }

  /**
   * 34 absent ticks from the start fire exactly one `no_face` and leave the counter at 0;
   * a 35th absent tick fires nothing more and sets the counter to 1.
   */
  lemma AbsentForThirtyFiveTicks()
    ensures var absent := Signals(0, 0, false);
      var ss := seq(34, _ => absent);
      CountType(Run(Initial, ss).fired, "no_face") == 1 &&
      Run(Initial, ss).next.noFace == 0 &&
      CountType(Run(Initial, ss + [absent]).fired, "no_face") == 1 &&
      Run(Initial, ss + [absent]).next.noFace == 1
  {
    var absent := Signals(0, 0, false);
    var ss := seq(34, _ => absent);
    AbsentRun(Initial, ss);
    AbsentRun(Initial, ss + [absent]);
  }

  /** Every `multiple_faces` event of a run carries the good count of a tick of that run. */
  lemma {:induction false} RunCarriesGoodCount(c: Counters, ss: seq<Signals>)
    requires Bounded(c)
    ensures forall e :: e in Run(c, ss).fired && e.MultipleFaces? ==>
      exists i :: 0 <= i < |ss| && ss[i].goodCount == e.count
    decreases |ss|
  {
    if ss != [] {
      var first := Step(c, ss[0]);
      var rest := Run(first.next, ss[1..]);
      MultipleFacesFiresExactly(c, ss[0]);
      StepCounters(c, ss[0]);
      RunCarriesGoodCount(first.next, ss[1..]);
      forall e | e in Run(c, ss).fired && e.MultipleFaces?
        ensures exists i :: 0 <= i < |ss| && ss[i].goodCount == e.count
      {
        if e in first.fired {
          assert ss[0].goodCount == e.count;
        } else {
          assert e in rest.fired;
          var i :| 0 <= i < |ss[1..]| && ss[1..][i].goodCount == e.count;
          assert ss[i + 1].goodCount == e.count;
        }
      }
    }
  }

  /** Three ticks with two good faces fire one `multiple_faces` with count 2; a fourth fires nothing more. */
  lemma TwoFacesForFourTicks()
    ensures var two := Signals(2, 2, false);
      var ss := [two, two, two];
      CountType(Run(Initial, ss).fired, "multiple_faces") == 1 &&
      (forall e :: e in Run(Initial, ss).fired && e.MultipleFaces? ==> e == MultipleFaces(2)) &&
      CountType(Run(Initial, ss + [two]).fired, "multiple_faces") == 1
  {
    var two := Signals(2, 2, false);
    var ss := [two, two, two];
    MultipleFacesRun(Initial, ss);
    MultipleFacesRun(Initial, ss + [two]);
    RunCarriesGoodCount(Initial, ss);
    assert forall i :: 0 <= i < |ss| ==> ss[i].goodCount == 2;
  }
}
