/**
 The geometric half of the monitor: the safety-zone rectangle, the detections
 reported for one frame, the axis-aligned overlap test and the per-frame
 "is any person inside the zone" decision.
 */
module Zone {

  /** An axis-aligned rectangle in frame-pixel coordinates, corners (x1, y1) and (x2, y2). */
  datatype Rect = Rect(x1: int, y1: int, x2: int, y2: int)

  /** One object reported by the detector: its class name (the label) and its (integer) bounding box. */
  datatype Detection = Detection(name: string, box: Rect)

  datatype Option<T> = None | Some(value: T)

  /** The configured zone, (400, 20, 630, 200) by default. */
  const SafetyZone: Rect := Rect(400, 20, 630, 200)

  const PersonLabel: string := "person"

  predicate IsPerson(d: Detection) {
    d.name == PersonLabel
  }

  /** A rectangle with positive width and height. */
  predicate WellFormed(r: Rect) {
    r.x1 < r.x2 && r.y1 < r.y2
  }

  /** The strict overlap test applied to a person box and the zone: partial
      overlap counts, rectangles that only share an edge do not. */
  function Overlaps(zone: Rect, box: Rect): (r: bool)
    // for rectangles of positive size: exactly a common region of positive area
    ensures WellFormed(zone) && WellFormed(box) ==> (r <==> WellFormed(Intersection(zone, box)))
    // a box on or beyond any edge of the zone never counts
    ensures box.x1 >= zone.x2 || box.x2 <= zone.x1 || box.y1 >= zone.y2 || box.y2 <= zone.y1 ==> !r
  {
    box.x1 < zone.x2 && box.x2 > zone.x1 && box.y1 < zone.y2 && box.y2 > zone.y1
  }

  /** A detection that makes the frame count as an intrusion. */
  predicate Intrudes(zone: Rect, d: Detection) {
    IsPerson(d) && Overlaps(zone, d.box)
  }

  function Max(a: int, b: int): int { if a < b then b else a }
  function Min(a: int, b: int): int { if a < b then a else b }

  /** The common part of two rectangles, as an independent reference for the overlap test. */
  function Intersection(a: Rect, b: Rect): Rect {
    Rect(Max(a.x1, b.x1), Max(a.y1, b.y1), Min(a.x2, b.x2), Min(a.y2, b.y2))
  }

  /** The scan over the frame's detections, stopping at the first person that
      overlaps the zone. */
  function InsideZone(zone: Rect, dets: seq<Detection>): (r: bool)
    ensures r <==> exists i :: 0 <= i < |dets| && Intrudes(zone, dets[i])
    decreases |dets|
  {
    if |dets| == 0 then false
    else if Intrudes(zone, dets[0]) then true
    else
      var rest := InsideZone(zone, dets[1..]);
      assert forall i :: 1 <= i < |dets| ==> dets[i] == dets[1..][i - 1];
      rest
  }

  /** The scan as the source writes it: a loop over the detections that
      breaks at the first intruding person. It returns that person's index
      (the box the source highlights), or None when nobody is inside. */
  method FirstIntruder(zone: Rect, dets: seq<Detection>) returns (found: Option<nat>)
    ensures found.None? <==> !InsideZone(zone, dets)
    ensures found.Some? ==> found.value < |dets| && Intrudes(zone, dets[found.value])
    ensures found.Some? ==> forall j :: 0 <= j < found.value ==> !Intrudes(zone, dets[j])
  {
    found := None;
    var i := 0;
    while i < |dets|
      invariant 0 <= i <= |dets|
      invariant forall j :: 0 <= j < i ==> !Intrudes(zone, dets[j])
    {
      if Intrudes(zone, dets[i]) {
        found := Some(i);
        return;
      }
      i := i + 1;
    }
  }

  /** The overlap test does not depend on which rectangle is the zone. */
  lemma OverlapsSymmetric(a: Rect, b: Rect)
    ensures Overlaps(a, b) <==> Overlaps(b, a)
  {
  }

  /** A well-formed box lying wholly inside the zone overlaps it. */
  lemma ContainedOverlaps(zone: Rect, box: Rect)
    requires WellFormed(box)
    requires zone.x1 <= box.x1 && box.x2 <= zone.x2 && zone.y1 <= box.y1 && box.y2 <= zone.y2
    ensures Overlaps(zone, box)
  {
  }

  /** Splitting the detections anywhere: a person is inside iff one is inside
      in either part. */
  lemma {:induction false} InsideZoneAppend(zone: Rect, a: seq<Detection>, b: seq<Detection>)
    ensures InsideZone(zone, a + b) <==> InsideZone(zone, a) || InsideZone(zone, b)
  {
    if InsideZone(zone, a + b) {
      var i :| 0 <= i < |a + b| && Intrudes(zone, (a + b)[i]);
      if i < |a| {
        assert (a + b)[i] == a[i];
      } else {
        assert (a + b)[i] == b[i - |a|];
      }
    }
    if InsideZone(zone, a) {
      var i :| 0 <= i < |a| && Intrudes(zone, a[i]);
      assert (a + b)[i] == a[i];
    }
    if InsideZone(zone, b) {
      var i :| 0 <= i < |b| && Intrudes(zone, b[i]);
      assert (a + b)[|a| + i] == b[i];
    }
  }

  /** A detection with any label other than "person" never changes the
      decision, wherever it sits in the list. */
  lemma NonPersonIgnored(zone: Rect, a: seq<Detection>, d: Detection, b: seq<Detection>)
    requires !IsPerson(d)
    ensures InsideZone(zone, a + [d] + b) == InsideZone(zone, a + b)
  {
    InsideZoneAppend(zone, a + [d], b);
    InsideZoneAppend(zone, a, [d]);
    InsideZoneAppend(zone, a, b);
  }

  /** The detector's ordering does not matter: any rearrangement of the same
      detections gives the same decision. */
  lemma OrderIrrelevant(zone: Rect, a: seq<Detection>, b: seq<Detection>)
    requires multiset(a) == multiset(b)
    ensures InsideZone(zone, a) == InsideZone(zone, b)
  {
    if InsideZone(zone, a) {
      var i :| 0 <= i < |a| && Intrudes(zone, a[i]);
      assert a[i] in multiset(a);
      assert a[i] in b;
      var j :| 0 <= j < |b| && b[j] == a[i];
    }
    if InsideZone(zone, b) {
      var j :| 0 <= j < |b| && Intrudes(zone, b[j]);
      assert b[j] in multiset(b);
      assert b[j] in a;
      var i :| 0 <= i < |a| && a[i] == b[j];
    }
  }
}
