/**
 The touch-to-path state machine of the drawing surface, on values.

 The state is the accumulated path (a sequence of Android `Path` commands)
 and the last accepted touch point `(mX, mY)`.  Coordinates are exact reals,
 so the tolerance test and the midpoint are exact.
 */
module Touch {

  /** Minimum per-axis movement that registers a new curve segment. */
  const TOLERANCE: real := 5.0

  /** The `MotionEvent` action codes the dispatcher recognises. */
  const ACTION_DOWN: int := 0
  const ACTION_UP: int := 1
  const ACTION_MOVE: int := 2

  datatype Point = Point(x: real, y: real)

  /** One command appended to the path, named after the `Path` call that appends it. */
  datatype PathOp =
    | MoveTo(x: real, y: real)
    | QuadTo(x1: real, y1: real, x2: real, y2: real)
    | LineTo(x: real, y: real)

  datatype TouchState = TouchState(path: seq<PathOp>, last: Point)

  datatype MotionEvent = MotionEvent(action: int, x: real, y: real)

  /** The view as constructed: an empty path and float fields at 0. */
  const Initial: TouchState := TouchState([], Point(0.0, 0.0))

  function Abs(r: real): (a: real)
    ensures a >= 0.0
    ensures a == r || a == -r
  {
    if r < 0.0 then -r else r
  }

  /** The filter of `moveTouch`: some axis moved at least the tolerance. */
  predicate BeyondTolerance(last: Point, x: real, y: real)
  {
    Abs(x - last.x) >= TOLERANCE || Abs(y - last.y) >= TOLERANCE
  }

  /** `onStartTouch`: start a new contour at the touch point. */
  function OnStart(s: TouchState, x: real, y: real): (r: TouchState)
    ensures s.path < r.path && |r.path| == |s.path| + 1
  {
    TouchState(s.path + [MoveTo(x, y)], Point(x, y))
  }

  /** `moveTouch`: a curve through the midpoint, or nothing for a small move. */
  function OnMove(s: TouchState, x: real, y: real): (r: TouchState)
    ensures s.path <= r.path && |r.path| <= |s.path| + 1
    ensures r == s <==> !BeyondTolerance(s.last, x, y)
  {
    if BeyondTolerance(s.last, x, y) then
      TouchState(s.path + [QuadTo(s.last.x, s.last.y, (x + s.last.x) / 2.0, (y + s.last.y) / 2.0)], Point(x, y))
    else
      s
  }

  /** `upTouch`: a straight segment to the last accepted point. */
  function OnUp(s: TouchState): (r: TouchState)
    ensures s.path < r.path && |r.path| == |s.path| + 1
    ensures r.last == s.last
  {
    TouchState(s.path + [LineTo(s.last.x, s.last.y)], s.last)
  }

  /** `clearCanvas`: the path is reset; the last point is left as it was. */
  function Clear(s: TouchState): (r: TouchState)
    ensures r.path == [] && r.last == s.last
  {
    TouchState([], s.last)
  }

  /** `onTouchEvent`: dispatch on the action code; unknown codes change nothing. */
  function OnTouch(s: TouchState, e: MotionEvent): (r: TouchState)
    ensures s.path <= r.path && |r.path| <= |s.path| + 1
  {
    if e.action == ACTION_DOWN then OnStart(s, e.x, e.y)
    else if e.action == ACTION_MOVE then OnMove(s, e.x, e.y)
    else if e.action == ACTION_UP then OnUp(s)
    else s
  }

  /** The state after a sequence of touch events, delivered in order. */
  function Run(s: TouchState, events: seq<MotionEvent>): TouchState
    decreases |events|
  {
    if events == [] then s else Run(OnTouch(s, events[0]), events[1..])
  }

  function CountPenEvents(events: seq<MotionEvent>): (n: nat)
    ensures n <= |events|
  {
    if events == [] then 0
    else (if events[0].action in {ACTION_DOWN, ACTION_UP} then 1 else 0) + CountPenEvents(events[1..])
  }

  /**
   The touch point that was current when `op` was appended: the point of a
   `MoveTo` or `LineTo`, and for a `QuadTo` the point whose midpoint with the
   control point is the curve's end.
   */
  function FingerAt(op: PathOp): Point
  {
    match op
    case MoveTo(x, y) => Point(x, y)
    case LineTo(x, y) => Point(x, y)
    case QuadTo(x1, y1, x2, y2) => Point(2.0 * x2 - x1, 2.0 * y2 - y1)
  }

  /** Every curve records a move that passed the tolerance filter. */
  predicate CurvePassedFilter(op: PathOp)
  {
    op.QuadTo? ==> BeyondTolerance(Point(op.x1, op.y1), 2.0 * op.x2 - op.x1, 2.0 * op.y2 - op.y1)
  }

  /**
   The invariant of the state machine: the last point is the one the last
   command was built from, and every curve in the path passed the filter.
   */
  predicate Valid(s: TouchState)
  {
    && (s.path != [] ==> s.last == FingerAt(s.path[|s.path| - 1]))
    && forall i :: 0 <= i < |s.path| ==> CurvePassedFilter(s.path[i])
  }

  // ---------------------------------------------------------------------
  // One-step properties

  /** Touch-down appends one `MoveTo` and keeps earlier strokes as a prefix. */
  lemma StartAppendsMoveTo(s: TouchState, x: real, y: real)
    ensures OnStart(s, x, y).path == s.path + [MoveTo(x, y)]
    ensures OnStart(s, x, y).last == Point(x, y)
  {
  }

  /** A move under the tolerance on both axes changes neither the path nor the last point. */
  lemma SmallMoveIsIgnored(s: TouchState, x: real, y: real)
    requires Abs(x - s.last.x) < TOLERANCE && Abs(y - s.last.y) < TOLERANCE
    ensures OnMove(s, x, y) == s
  {
  }

  /**
   A move of at least the tolerance on some axis appends exactly one curve,
   controlled by the old last point and ending at the midpoint, and then
   makes the touch point the last point.
   */
  lemma LargeMoveAppendsCurve(s: TouchState, x: real, y: real)
    requires Abs(x - s.last.x) >= TOLERANCE || Abs(y - s.last.y) >= TOLERANCE
    ensures OnMove(s, x, y).path
         == s.path + [QuadTo(s.last.x, s.last.y, (s.last.x + x) / 2.0, (s.last.y + y) / 2.0)]
    ensures OnMove(s, x, y).last == Point(x, y)
  {
  }

  /** Repeating a move to the same point adds nothing the first did not. */
  lemma MoveIdempotent(s: TouchState, x: real, y: real)
    ensures OnMove(OnMove(s, x, y), x, y) == OnMove(s, x, y)
  {
  }

  /** Touch-up closes with a line to the last accepted point, not the event's coordinates. */
  lemma UpEndsAtLastAccepted(s: TouchState, e: MotionEvent)
    requires e.action == ACTION_UP
    ensures OnTouch(s, e).path == s.path + [LineTo(s.last.x, s.last.y)]
    ensures OnTouch(s, e).last == s.last
  {
  }

  /**
   Clearing empties any path, keeps the last point (so the next move is still
   measured from it), and clearing again changes nothing.
   */
  lemma ClearIdempotent(s: TouchState)
    ensures Clear(s).path == [] && Clear(s).last == s.last
    ensures Clear(Clear(s)) == Clear(s)
  {
  }

  /** Actions other than down, move and up leave the state as it was. */
  lemma OtherActionIgnored(s: TouchState, e: MotionEvent)
    requires e.action !in {ACTION_DOWN, ACTION_MOVE, ACTION_UP}
    ensures OnTouch(s, e) == s
  {
  }

  /** Every transition preserves the invariant. */
  lemma OnTouchPreservesValid(s: TouchState, e: MotionEvent)
    requires Valid(s)
    ensures Valid(OnTouch(s, e))
  {

  }

  lemma ClearPreservesValid(s: TouchState)
    requires Valid(s)
    ensures Valid(Clear(s))
  {
  }

  lemma InitialValid()
    ensures Valid(Initial)
  {
  }

  // ---------------------------------------------------------------------
  // Properties of event sequences

  lemma {:induction false} RunPreservesValid(s: TouchState, events: seq<MotionEvent>)
    requires Valid(s)
    ensures Valid(Run(s, events))
    decreases |events|
  {
    if events != [] {
      OnTouchPreservesValid(s, events[0]);
      RunPreservesValid(OnTouch(s, events[0]), events[1..]);
    }
  }

  /**
   The last point is recoverable from the path: after any events from a valid
   state with a non-empty resulting path, it is the point the last command was
   built from.
   */
  lemma {:induction false} LastPointFollowsPath(s: TouchState, events: seq<MotionEvent>)
    requires Valid(s)
    requires Run(s, events).path != []
    ensures Run(s, events).last == FingerAt(Run(s, events).path[|Run(s, events).path| - 1])
  {
    RunPreservesValid(s, events);
  }

  /** Touch events never remove anything: the earlier path is a prefix of the later one. */
  lemma {:induction false} RunKeepsPrefix(s: TouchState, events: seq<MotionEvent>)
    ensures s.path <= Run(s, events).path
    decreases |events|
  {
    if events != [] {
      RunKeepsPrefix(OnTouch(s, events[0]), events[1..]);
    }
  }

  /**
   Each event appends at most one command, and each down or up event exactly
   one.
   */
  lemma {:induction false} RunLengthBounds(s: TouchState, events: seq<MotionEvent>)
    ensures |s.path| + CountPenEvents(events) <= |Run(s, events).path| <= |s.path| + |events|
    decreases |events|
  {
    if events != [] {
      RunLengthBounds(OnTouch(s, events[0]), events[1..]);
    }
  }

  /** A sequence of moves each under the tolerance from the last point leaves the state unchanged. */
  lemma {:induction false} SmallMovesAreIgnored(s: TouchState, events: seq<MotionEvent>)
    requires forall i :: 0 <= i < |events| ==>
      events[i].action == ACTION_MOVE && !BeyondTolerance(s.last, events[i].x, events[i].y)
    ensures Run(s, events) == s
    decreases |events|
  {
    if events != [] {
      assert OnTouch(s, events[0]) == s;
      SmallMovesAreIgnored(s, events[1..]);
    }
  }

  /**
   Down at (10,10), move to (20,10), move to (21,10), up: one curve and a
   closing line to (20,10) are appended after a `MoveTo(10,10)`.
   */
  lemma Scenario(s: TouchState)
    ensures Run(s, [MotionEvent(ACTION_DOWN, 10.0, 10.0), MotionEvent(ACTION_MOVE, 20.0, 10.0),
                    MotionEvent(ACTION_MOVE, 21.0, 10.0), MotionEvent(ACTION_UP, 21.0, 10.0)])
         == TouchState(s.path + [MoveTo(10.0, 10.0), QuadTo(10.0, 10.0, 15.0, 10.0), LineTo(20.0, 10.0)],
                       Point(20.0, 10.0))
  {
    var down, move1 := MotionEvent(ACTION_DOWN, 10.0, 10.0), MotionEvent(ACTION_MOVE, 20.0, 10.0);
    var move2, up := MotionEvent(ACTION_MOVE, 21.0, 10.0), MotionEvent(ACTION_UP, 21.0, 10.0);
    var s1, s2, s3 := ScenarioSteps(s);
    RunStep(s, down, [move1, move2, up]);
    RunStep(s1, move1, [move2, up]);
    RunStep(s2, move2, [up]);
    RunStep(s2, up, []);
    assert [down] + [move1, move2, up] == [down, move1, move2, up];
    assert s3.path == s.path + [MoveTo(10.0, 10.0), QuadTo(10.0, 10.0, 15.0, 10.0), LineTo(20.0, 10.0)];
  }

  /** The state after each of the scenario's events. */
  lemma ScenarioSteps(s: TouchState) returns (s1: TouchState, s2: TouchState, s3: TouchState)
    ensures s1 == TouchState(s.path + [MoveTo(10.0, 10.0)], Point(10.0, 10.0))
    ensures s2 == TouchState(s1.path + [QuadTo(10.0, 10.0, 15.0, 10.0)], Point(20.0, 10.0))
    ensures s3 == TouchState(s2.path + [LineTo(20.0, 10.0)], Point(20.0, 10.0))
    ensures OnTouch(s, MotionEvent(ACTION_DOWN, 10.0, 10.0)) == s1
    ensures OnTouch(s1, MotionEvent(ACTION_MOVE, 20.0, 10.0)) == s2
    ensures OnTouch(s2, MotionEvent(ACTION_MOVE, 21.0, 10.0)) == s2
    ensures OnTouch(s2, MotionEvent(ACTION_UP, 21.0, 10.0)) == s3
  {
    s1 := OnStart(s, 10.0, 10.0);
    assert Abs(20.0 - 10.0) == 10.0;
    s2 := OnMove(s1, 20.0, 10.0);
    assert Abs(21.0 - 20.0) == 1.0 && Abs(10.0 - 10.0) == 0.0;
    s3 := OnUp(s2);
  }

  lemma RunStep(s: TouchState, e: MotionEvent, rest: seq<MotionEvent>)
    ensures Run(s, [e] + rest) == Run(OnTouch(s, e), rest)
  {
    assert ([e] + rest)[1..] == rest;
  }
}
