/** The rotating-dot loading indicator: a running flag coupled to the repeat
    count of its value animator, a centre recomputed on resize, and one dot
    per configured colour. */
module LoadingView {
  import opened Results
  import opened Views

  /** ValueAnimator.INFINITE. */
  const INFINITE: int := -1
  /** The animator's cycle length in milliseconds. */
  const DURATION_MS: nat := 1500
  /** Defaults of the `circleCircle` and `pointCircle` styled attributes. */
  const DEFAULT_ROTATE_RADIUS: int := 60
  const DEFAULT_POINT_RADIUS: int := 10

  /** ValueAnimator.RESTART and ValueAnimator.REVERSE. */
  datatype RepeatMode = Restart | Reverse

  /** The animator settings the view controls; `starts` counts calls to start(),
      each of which replays the animation from fraction 0. */
  datatype Animator = Animator(duration: nat, mode: RepeatMode, repeatCount: int, starts: nat)

  datatype Point = Point(x: int, y: int)

  /** The state of one LoadingView. `center` is null until the first size change. */
  datatype Spinner = Spinner(
    colors: seq<int>,
    rotateRadius: int,
    pointRadius: int,
    animator: Animator,
    isRunning: bool,
    center: Option<Point>)

  /** One painted dot: its position in the ring and its paint colour. Positions
      on the circle are floating point and not modelled. */
  datatype Dot = Dot(index: nat, color: int)

  /** The running flag agrees with the animator: running exactly when it
      repeats forever. */
  predicate Coherent(s: Spinner) {
    s.isRunning <==> s.animator.repeatCount == INFINITE
  }

  /** The state the constructor leaves a view in, whatever its colours and radii. */
  predicate AsCreated(s: Spinner) {
    && s.isRunning && Coherent(s)
    && s.animator.mode == Restart && s.animator.duration == DURATION_MS
    && s.center == None
  }

  /** The constructor: configure a 1500 ms restarting animator with infinite
      repeat and start it; the view is running. */
  function Create(colors: seq<int>, rotateAttr: Option<int>, pointAttr: Option<int>): (s: Spinner)
    ensures s.isRunning && Coherent(s) && AsCreated(s)
    ensures s.animator.mode == Restart && s.animator.duration == DURATION_MS
    ensures s.animator.starts == 1
    ensures s.colors == colors && s.center == None
    ensures s.rotateRadius == (if rotateAttr.Some? then rotateAttr.value else 60)
    ensures s.pointRadius == (if pointAttr.Some? then pointAttr.value else 10)
  {
    var rotate := if rotateAttr.Some? then rotateAttr.value else DEFAULT_ROTATE_RADIUS;
    var point := if pointAttr.Some? then pointAttr.value else DEFAULT_POINT_RADIUS;
    var animator := Animator(DURATION_MS, Restart, INFINITE, 0);
    Spinner(colors, rotate, point, animator.(starts := animator.starts + 1), true, None)
  }

  /** stopRunning: a running view lets the current cycle finish and stops;
      a stopped view is left alone. */
  function StopRunning(s: Spinner): (r: Spinner)
    ensures !r.isRunning
    ensures s.isRunning ==> r.animator.repeatCount == 0
    ensures !s.isRunning ==> r == s
    ensures r.animator.starts == s.animator.starts && r.animator.mode == s.animator.mode
    ensures r.animator.duration == s.animator.duration
    ensures r.colors == s.colors && r.center == s.center
    ensures r.rotateRadius == s.rotateRadius && r.pointRadius == s.pointRadius
    ensures Coherent(s) ==> Coherent(r)
  {
    if s.isRunning then
      s.(animator := s.animator.(repeatCount := 0), isRunning := false)
    else s
  }

  /** startRunning: a stopped view repeats forever again and its animator is
      restarted; a running view is left alone. */
  function StartRunning(s: Spinner): (r: Spinner)
    ensures r.isRunning
    ensures !s.isRunning ==> r.animator.repeatCount == INFINITE
    ensures !s.isRunning ==> r.animator.starts == s.animator.starts + 1
    ensures s.isRunning ==> r == s
    ensures r.animator.mode == s.animator.mode && r.animator.duration == s.animator.duration
    ensures r.colors == s.colors && r.center == s.center
    ensures r.rotateRadius == s.rotateRadius && r.pointRadius == s.pointRadius
    ensures Coherent(s) ==> Coherent(r)
  {
    if !s.isRunning then
      var a := s.animator.(repeatCount := INFINITE);
      s.(animator := a.(starts := a.starts + 1), isRunning := true)
    else s
  }

  /** onSizeChanged: the centre is half the new width and height, rounded
      toward zero; the old size plays no part. */
  function SizeChanged(s: Spinner, w: int, h: int, oldw: int, oldh: int): (r: Spinner)
    requires IsInt32(w) && IsInt32(h) && IsInt32(oldw) && IsInt32(oldh)
    ensures r.center.Some?
    ensures w >= 0 ==> 0 <= w - 2 * r.center.value.x <= 1
    ensures w < 0 ==> -1 <= w - 2 * r.center.value.x <= 0
    ensures h >= 0 ==> 0 <= h - 2 * r.center.value.y <= 1
    ensures h < 0 ==> -1 <= h - 2 * r.center.value.y <= 0
    ensures r.(center := s.center) == s
  {
    s.(center := Some(Point(Half(w), Half(h))))
  }

  /** The dots one frame paints: one per colour, dot `i` in colour `i`. */
  method Draw(s: Spinner) returns (dots: seq<Dot>)
    ensures |dots| == |s.colors|
    ensures forall i :: 0 <= i < |dots| ==> dots[i].index == i && dots[i].color == s.colors[i]
  {
    dots := [];
    var i := 0;
    while i < |s.colors|
      invariant 0 <= i <= |s.colors| && |dots| == i
      invariant forall j :: 0 <= j < i ==> dots[j].index == j && dots[j].color == s.colors[j]
    {
      dots := dots + [Dot(i, s.colors[i])];
      i := i + 1;
    }
  }

  /** Stopping is idempotent, and so is starting. */
  lemma StopStartIdempotent(s: Spinner)
    ensures StopRunning(StopRunning(s)) == StopRunning(s)
    ensures StartRunning(StartRunning(s)) == StartRunning(s)
  {
  }

  /** From any coherent running state, stopping and then starting again gives
      back the running flag and the animator configuration, with one more
      restart recorded. */
  lemma StopThenStart(s: Spinner)
    requires Coherent(s) && s.isRunning
    ensures StartRunning(StopRunning(s)) == s.(animator := s.animator.(starts := s.animator.starts + 1))
  {
  }

  /** In particular a freshly built view that is stopped and started is back
      in its initial running configuration. */
  lemma StopThenStartFromCreate(colors: seq<int>, rotateAttr: Option<int>, pointAttr: Option<int>)
    ensures var s := Create(colors, rotateAttr, pointAttr);
            var t := StartRunning(StopRunning(s));
            t.isRunning && t.animator.repeatCount == INFINITE && t.animator.mode == Restart
            && t.animator.duration == DURATION_MS && t.(animator := s.animator) == s
  {
    StopThenStart(Create(colors, rotateAttr, pointAttr));
  }
}
