/**
 * The four integrity events and their details payloads. The constructor is the event type;
 * its fields are the `details` object the browser sends with the event.
 */
module Events {

  datatype Emission =
    | NoFace(durationSeconds: nat)
    | LookAway(durationSeconds: nat)
    | MultipleFaces(count: nat)
      /**
       * `objectClass` is the payload's `object` field, the lower-cased label; `confidenceHundredths`
       * is `Math.round(conf * 100)`, and the payload's `confidence` is that divided by 100.
       */
    | ObjectDetected(objectClass: string, confidenceHundredths: nat)

  /** The `eventType` string stored with the event. */
  function EventType(e: Emission): (t: string)
    ensures t in {"no_face", "look_away", "multiple_faces", "object_detected"}
    ensures t == "object_detected" <==> e.ObjectDetected?
  {
    match e
    case NoFace(_) => "no_face"
    case LookAway(_) => "look_away"
    case MultipleFaces(_) => "multiple_faces"
    case ObjectDetected(_, _) => "object_detected"
  }

  /** The event type names are pairwise distinct, so the type string identifies the constructor. */
  lemma EventTypeDetermines(a: Emission, b: Emission)
    ensures EventType(a) == EventType(b) <==>
      (a.NoFace? && b.NoFace?) || (a.LookAway? && b.LookAway?) ||
      (a.MultipleFaces? && b.MultipleFaces?) || (a.ObjectDetected? && b.ObjectDetected?)
  {
  }

  /** How many of `fired` have the given event type. */
  function CountType(fired: seq<Emission>, eventType: string): (n: nat)
    ensures n <= |fired|
    decreases |fired|
  {
    if fired == [] then 0
    else (if EventType(fired[0]) == eventType then 1 else 0) + CountType(fired[1..], eventType)
  }

  lemma {:induction false} CountTypeConcat(a: seq<Emission>, b: seq<Emission>, eventType: string)
    ensures CountType(a + b, eventType) == CountType(a, eventType) + CountType(b, eventType)
    decreases |a|
  {
    if a == [] {
      assert a + b == b;
    } else {
      assert (a + b)[0] == a[0];
      assert (a + b)[1..] == a[1..] + b;
      CountTypeConcat(a[1..], b, eventType);
    }
  }

  /** An event type occurs in `fired` exactly when its count is positive. */
  lemma {:induction false} CountTypePositive(fired: seq<Emission>, eventType: string)
    ensures CountType(fired, eventType) > 0 <==> exists i :: 0 <= i < |fired| && EventType(fired[i]) == eventType
    decreases |fired|
  {
    if fired != [] {
      CountTypePositive(fired[1..], eventType);
      if CountType(fired[1..], eventType) > 0 {
        var i :| 0 <= i < |fired[1..]| && EventType(fired[1..][i]) == eventType;
        assert EventType(fired[i + 1]) == eventType;
      }
      if exists i :: 0 <= i < |fired| && EventType(fired[i]) == eventType {
        var i :| 0 <= i < |fired| && EventType(fired[i]) == eventType;
        if i > 0 {
          assert EventType(fired[1..][i - 1]) == eventType;
        }
      }
    }
  }
}
