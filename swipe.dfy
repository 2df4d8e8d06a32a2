/** The touch-swipe adapter of src/hooks/useSwipe.js: two refs updated by
    the touch-start and touch-move handlers, and the classification that
    the touch-end handler makes of the gesture. */
module Swipe {
  import opened Wrappers

  /** `minSwipeDistance`, in CSS pixels. */
  const MinSwipeDistance: int := 50

  datatype Point = Point(x: int, y: int)

  /** The four callbacks a gesture can fire. */
  datatype Gesture = SwipeLeft | SwipeRight | SwipeUp | SwipeDown

  function Abs(n: int): nat
  {
    if n < 0 then -n else n
  }

  /** What `handleTouchEnd` fires for a gesture from `start` to `end`;
      `None` when it fires nothing. A zero x coordinate at either end is
      read as "no touch recorded". */
  function Classify(start: Point, end: Point): (g: Option<Gesture>)
  {
    if start.x == 0 || end.x == 0 then None
    else
      var dx := start.x - end.x;
      var dy := start.y - end.y;
      if Abs(dx) > Abs(dy) then
        if dx > MinSwipeDistance then Some(SwipeLeft)
        else if dx < -MinSwipeDistance then Some(SwipeRight)
        else None
      else
        if dy > MinSwipeDistance then Some(SwipeUp)
        else if dy < -MinSwipeDistance then Some(SwipeDown)
        else None
  }

  predicate Horizontal(g: Gesture)
  {
    g == SwipeLeft || g == SwipeRight
  }

  /** The gesture read backwards. */
  function Opposite(g: Gesture): Gesture
  {
    match g
    case SwipeLeft => SwipeRight
    case SwipeRight => SwipeLeft
    case SwipeUp => SwipeDown
    case SwipeDown => SwipeUp
  }

  /** A horizontal callback fires exactly when the horizontal travel
      dominates and strictly exceeds the threshold, in either direction. */
  lemma HorizontalIff(start: Point, end: Point)
    requires start.x != 0 && end.x != 0
    ensures Classify(start, end).Some? && Horizontal(Classify(start, end).value)
        <==> Abs(start.x - end.x) > Abs(start.y - end.y) && Abs(start.x - end.x) > MinSwipeDistance
  {
  }

  /** A gesture whose vertical travel is at least its horizontal travel
      never fires left or right, however long it is. */
  lemma VerticalNeverHorizontal(start: Point, end: Point)
    requires Abs(start.x - end.x) <= Abs(start.y - end.y)
    ensures Classify(start, end) != Some(SwipeLeft) && Classify(start, end) != Some(SwipeRight)
  {
  }

  /** With the vertical travel at least the horizontal one, the up
      callback fires exactly above +50, the down callback exactly below
      -50, and nothing fires in between. */
  lemma VerticalIff(start: Point, end: Point)
    requires start.x != 0 && end.x != 0
    requires Abs(start.x - end.x) <= Abs(start.y - end.y)
    ensures Classify(start, end) == Some(SwipeUp) <==> start.y - end.y > MinSwipeDistance
    ensures Classify(start, end) == Some(SwipeDown) <==> start.y - end.y < -MinSwipeDistance
    ensures Classify(start, end) == None <==> Abs(start.y - end.y) <= MinSwipeDistance
  {
  }

  /** The threshold is strict in both directions: a dominating travel of
      exactly 50, horizontal or vertical, fires nothing. */
  lemma ThresholdIsStrict(start: Point, end: Point)
    requires
      || (Abs(start.x - end.x) == MinSwipeDistance && Abs(start.y - end.y) < MinSwipeDistance)
      || (Abs(start.y - end.y) == MinSwipeDistance && Abs(start.x - end.x) <= MinSwipeDistance)
    ensures Classify(start, end) == None
  {
  }

  /** Moving the finger leftward (a positive start.x - end.x) fires the
      left callback once it passes the threshold. */
  lemma LeftwardFiresLeft(start: Point, end: Point)
    requires start.x != 0 && end.x != 0
    requires start.x - end.x > MinSwipeDistance && start.x - end.x > Abs(start.y - end.y)
    ensures Classify(start, end) == Some(SwipeLeft)
  {
  }

  /** Swapping the two ends of a gesture swaps left with right and up with
      down, and keeps "nothing" as nothing. */
  lemma ReversedGesture(start: Point, end: Point)
    ensures Classify(end, start) == if Classify(start, end).Some? then Some(Opposite(Classify(start, end).value)) else None
  {
  }

  /** Shifting both ends by the same offset does not change the outcome, as
      long as neither x becomes the "no touch" value 0. */
  lemma ShiftInvariant(start: Point, end: Point, ox: int, oy: int)
    requires start.x != 0 && end.x != 0 && start.x + ox != 0 && end.x + ox != 0
    ensures Classify(Point(start.x + ox, start.y + oy), Point(end.x + ox, end.y + oy)) == Classify(start, end)
  {
  }

  /** The touch refs of the hook. */
  class Tracker {
    var touchStart: Point
    var touchEnd: Point

    constructor ()
      ensures touchStart == Point(0, 0) && touchEnd == Point(0, 0)
    {
      touchStart, touchEnd := Point(0, 0), Point(0, 0);
    }

    /** `handleTouchStart`: forgets the previous end point and records the
        first touch of the new gesture. */
    method TouchStart(p: Point)
      modifies this
      ensures touchStart == p && touchEnd == Point(0, 0)
    {
      touchEnd := Point(0, 0);
      touchStart := p;
    }

    /** `handleTouchMove`: the latest position becomes the end point. */
    method TouchMove(p: Point)
      modifies this
      ensures touchEnd == p && touchStart == old(touchStart)
    {
      touchEnd := p;
    }

    /** `handleTouchEnd`: fires at most one callback and changes no ref. */
    method TouchEnd() returns (fired: Option<Gesture>)
      ensures fired == Classify(touchStart, touchEnd)
    {
      if touchStart.x == 0 || touchEnd.x == 0 {
        return None;
      }
      var distanceX := touchStart.x - touchEnd.x;
      var distanceY := touchStart.y - touchEnd.y;
      var isHorizontalSwipe := Abs(distanceX) > Abs(distanceY);
      if isHorizontalSwipe {
        if distanceX > MinSwipeDistance {
          fired := Some(SwipeLeft);
        } else if distanceX < -MinSwipeDistance {
          fired := Some(SwipeRight);
        } else {
          fired := None;
        }
      } else {
        if distanceY > MinSwipeDistance {
          fired := Some(SwipeUp);
        } else if distanceY < -MinSwipeDistance {
          fired := Some(SwipeDown);
        } else {
          fired := None;
        }
      }
    }
  }

  /** A touch that never moves fires nothing: the start handler reset the
      end point to (0, 0). */
  method TapFiresNothing(p: Point) returns (fired: Option<Gesture>)
    ensures fired == None
  {
    var t := new Tracker();
    t.TouchStart(p);
    fired := t.TouchEnd();
  }
}
