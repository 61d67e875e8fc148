/** The object tick's filter: which object-detector predictions become `object_detected` events. */
module ObjectSignals {
  import opened Wrappers
  import opened Strings
  import opened Events

  /** One object prediction; a missing or falsy `class` is recorded as the empty string. */
  datatype ObjectPrediction = ObjectPrediction(className: string, score: Option<real>, confidence: Option<real>)

  const FlaggedLabels: set<string> := {"cell phone", "cellphone", "phone", "laptop", "book", "keyboard", "remote"}
  const ObjectConfidenceFloor: real := 0.35

  /** A number is truthy in JavaScript when it is present and not zero (NaN is not modelled). */
  predicate Truthy(v: Option<real>) {
    v.Some? && v.value != 0.0
  }

  /** `p.score || p.confidence || 0`: the first truthy of the two, else 0. */
  function Confidence(p: ObjectPrediction): (conf: real)
    ensures Truthy(p.score) ==> conf == p.score.value
    ensures !Truthy(p.score) && Truthy(p.confidence) ==> conf == p.confidence.value
    ensures !Truthy(p.score) && !Truthy(p.confidence) ==> conf == 0.0
  {
    if Truthy(p.score) then p.score.value
    else if Truthy(p.confidence) then p.confidence.value
    else 0.0
  }

  /** The loop's test: a flagged lower-cased label and a confidence strictly above 0.35. */
  predicate IsFlagged(p: ObjectPrediction)
    ensures IsFlagged(p) ==> ToLower(p.className) in FlaggedLabels && (Truthy(p.score) || Truthy(p.confidence))
    ensures IsFlagged(p) && Truthy(p.score) ==> p.score.value > ObjectConfidenceFloor
  {
    ToLower(p.className) in FlaggedLabels && Confidence(p) > ObjectConfidenceFloor
  }

  /** `Math.round(conf * 100)`: the confidence in hundredths, off by at most half a hundredth. */
  function RoundHundredths(conf: real): (h: nat)
    requires conf >= 0.0
    ensures h as real / 100.0 - 0.005 <= conf < h as real / 100.0 + 0.005
  {
    (conf * 100.0 + 0.5).Floor
  }

  /** The event a flagged prediction raises. */
  function Report(p: ObjectPrediction): (e: Emission)
    requires IsFlagged(p)
    ensures e.ObjectDetected? && e.objectClass in FlaggedLabels
    ensures e.confidenceHundredths as real / 100.0 - 0.005 <= Confidence(p) < e.confidenceHundredths as real / 100.0 + 0.005
    ensures e.confidenceHundredths >= 35
  {
    ObjectDetected(ToLower(p.className), RoundHundredths(Confidence(p)))
  }

  /** The events of one object tick, one per flagged prediction. */
  function ObjectEmissions(preds: seq<ObjectPrediction>): (r: seq<Emission>)
    ensures |r| <= |preds|
    ensures forall e :: e in r ==> e.ObjectDetected? && e.objectClass in FlaggedLabels
    ensures preds != [] && IsFlagged(preds[0]) ==> r != [] && r[0] == Report(preds[0])
    decreases |preds|
  {
    if preds == [] then []
    else (if IsFlagged(preds[0]) then [Report(preds[0])] else []) + ObjectEmissions(preds[1..])
  }

  /** The events of a concatenation are the events of each part, in order. */
  lemma {:induction false} ObjectEmissionsConcat(a: seq<ObjectPrediction>, b: seq<ObjectPrediction>)
    ensures ObjectEmissions(a + b) == ObjectEmissions(a) + ObjectEmissions(b)
    decreases |a|
  {
    if a == [] {
      assert a + b == b;
    } else {
      assert (a + b)[0] == a[0];
      assert (a + b)[1..] == a[1..] + b;
      ObjectEmissionsConcat(a[1..], b);
    }
  }

  /** One prediction yields exactly one event when flagged and none otherwise. */
  lemma ObjectEmissionsSingle(p: ObjectPrediction)
    ensures ObjectEmissions([p]) == if IsFlagged(p) then [Report(p)] else []
  {
    assert [p][1..] == [];
  }

  /** Extending the predictions seen so far by one adds that prediction's event, if any. */
  lemma ObjectEmissionsExtend(preds: seq<ObjectPrediction>, i: int)
    requires 0 <= i < |preds|
    ensures ObjectEmissions(preds[..i + 1]) ==
      ObjectEmissions(preds[..i]) + (if IsFlagged(preds[i]) then [Report(preds[i])] else [])
  {
    assert preds[..i + 1] == preds[..i] + [preds[i]];
    ObjectEmissionsConcat(preds[..i], [preds[i]]);
    ObjectEmissionsSingle(preds[i]);
  }

  /** The number of events is the number of flagged predictions. */
  lemma {:induction false} ObjectEmissionsCount(preds: seq<ObjectPrediction>)
    ensures |ObjectEmissions(preds)| == |FlaggedOnly(preds)|
    ensures forall p :: p in FlaggedOnly(preds) <==> p in preds && IsFlagged(p)
    decreases |preds|
  {
    if preds != [] {
      ObjectEmissionsCount(preds[1..]);
    }
  }

  function FlaggedOnly(preds: seq<ObjectPrediction>): seq<ObjectPrediction>
    decreases |preds|
  {
    if preds == [] then [] else (if IsFlagged(preds[0]) then [preds[0]] else []) + FlaggedOnly(preds[1..])
  }

  /** A phone at confidence 0.5 raises one event with confidence 0.5; at 0.2 it raises none. */
  lemma PhoneScenario()
    ensures ObjectEmissions([ObjectPrediction("cell phone", Some(0.5), None)]) == [ObjectDetected("cell phone", 50)]
    ensures ObjectEmissions([ObjectPrediction("cell phone", Some(0.2), None)]) == []
  {
    var hi, lo := ObjectPrediction("cell phone", Some(0.5), None), ObjectPrediction("cell phone", Some(0.2), None);
    assert ToLower("cell phone") == "cell phone";
    assert (0.5 * 100.0 + 0.5).Floor == 50;
    ObjectEmissionsSingle(hi);
    ObjectEmissionsSingle(lo);
  }

  /** Labels are matched after lower-casing, so "Cell Phone" is flagged like "cell phone". */
  lemma UpperCaseLabelFlagged()
    ensures IsFlagged(ObjectPrediction("Cell Phone", None, Some(0.9)))
  {
    assert ToLower("Cell Phone") == "cell phone";
  }
}
