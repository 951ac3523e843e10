/**
 The drawing surface as an object: its path and last point are fields that
 the touch handlers update in place.  Each method is tied to the transition
 function of module Touch that specifies it.
 */
module Canvas {
  import opened Touch

  class CanvasView {
    var path: seq<PathOp>
    var mX: real
    var mY: real

    /** The abstract state the fields stand for. */
    function State(): TouchState
      reads this
    {
      TouchState(path, Point(mX, mY))
    }

    /** The object invariant; the constructor establishes it and every method keeps it. */
    ghost predicate Valid()
      reads this
    {
      Touch.Valid(State())
    }

    constructor ()
      ensures Valid()
      ensures path == [] && mX == 0.0 && mY == 0.0
      ensures State() == Initial
    {
      path := [];
      mX, mY := 0.0, 0.0;
    }

    method OnStartTouch(x: real, y: real)
      requires Valid()
      modifies this
      ensures Valid()
      ensures path == old(path) + [MoveTo(x, y)] && mX == x && mY == y
      ensures State() == OnStart(old(State()), x, y)
    {
      OnTouchPreservesValid(State(), MotionEvent(ACTION_DOWN, x, y));
      path := path + [MoveTo(x, y)];
      mX := x;
      mY := y;
    }

    method MoveTouch(x: real, y: real)
      requires Valid()
      modifies this
      ensures Valid()
      ensures if Abs(x - old(mX)) >= TOLERANCE || Abs(y - old(mY)) >= TOLERANCE then
          path == old(path) + [QuadTo(old(mX), old(mY), (x + old(mX)) / 2.0, (y + old(mY)) / 2.0)]
          && mX == x && mY == y
        else
          path == old(path) && mX == old(mX) && mY == old(mY)
      ensures State() == OnMove(old(State()), x, y)
    {
      OnTouchPreservesValid(State(), MotionEvent(ACTION_MOVE, x, y));
      var dx := Abs(x - mX);
      var dy := Abs(y - mY);
      if dx >= TOLERANCE || dy >= TOLERANCE {
        path := path + [QuadTo(mX, mY, (x + mX) / 2.0, (y + mY) / 2.0)];
        mX := x;
        mY := y;
      }
    }

    method UpTouch()
      requires Valid()
      modifies this
      ensures Valid()
      ensures path == old(path) + [LineTo(old(mX), old(mY))] && mX == old(mX) && mY == old(mY)
      ensures State() == OnUp(old(State()))
    {
      OnTouchPreservesValid(State(), MotionEvent(ACTION_UP, mX, mY));
      path := path + [LineTo(mX, mY)];
    }

    /** The drawing cache and the re-render request are not modelled. */
    method ClearCanvas()
      requires Valid()
      modifies this
      ensures Valid()
      ensures path == [] && mX == old(mX) && mY == old(mY)
      ensures State() == Clear(old(State()))
    {
      path := [];
    }

    method OnTouchEvent(event: MotionEvent) returns (handled: bool)
      requires Valid()
      modifies this
      ensures Valid()
      ensures handled
      ensures State() == OnTouch(old(State()), event)
      ensures event.action !in {ACTION_DOWN, ACTION_MOVE, ACTION_UP} ==>
        path == old(path) && mX == old(mX) && mY == old(mY)
    {
      var x := event.x;
      var y := event.y;
      if event.action == ACTION_DOWN {
        OnStartTouch(x, y);
      } else if event.action == ACTION_MOVE {
        MoveTouch(x, y);
      } else if event.action == ACTION_UP {
        UpTouch();
      }
      handled := true;
    }
  }

  /**
   A client's view: delivering the scenario's events to a fresh view yields
   one `MoveTo`, one curve and a closing line at the last accepted point.
   */
  method ScenarioOnFreshView() returns (view: CanvasView)
    ensures view.path == [MoveTo(10.0, 10.0), QuadTo(10.0, 10.0, 15.0, 10.0), LineTo(20.0, 10.0)]
    ensures view.mX == 20.0 && view.mY == 10.0
  {
    view := new CanvasView();
    var h := view.OnTouchEvent(MotionEvent(ACTION_DOWN, 10.0, 10.0));
    h := view.OnTouchEvent(MotionEvent(ACTION_MOVE, 20.0, 10.0));
    h := view.OnTouchEvent(MotionEvent(ACTION_MOVE, 21.0, 10.0));
    h := view.OnTouchEvent(MotionEvent(ACTION_UP, 21.0, 10.0));
  }
}
