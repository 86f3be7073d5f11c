/**
 * The per-frame controller of the cursor-follower canvas: the core point
 * eases toward the pointer while one is tracked inside the viewport, and
 * otherwise follows a figure-eight (lemniscate) idle path driven by a clock;
 * every frame then moves all tentacles toward the core.
 */
module Overlay {
  import opened Geometry
  import opened Chain

  /** Inset, in logical pixels, of the box the core is kept in. */
  const Margin: real := 50.0

  /** Clock advance per idle frame. */
  const IdleStep: real := 0.003

  /** Tentacles created per resize. */
  const TentacleCount: nat := 500

  /**
   * The state captured by the animation closure: the core and its position in
   * the previous frame, the last pointer position, whether it is being
   * tracked, the idle clock and page visibility.
   */
  datatype Controller = Controller(core: Point, prevCore: Point, mouse: Point, hasMouse: bool, time: real, visible: bool)

  /** The listeners' inputs. */
  datatype Event =
    | MouseMove(p: Point)
    | MouseLeave
    | DocumentMouseLeave(hasRelatedTarget: bool)
    | VisibilityChange(hidden: bool)

  /** Mount: the core starts (with its previous position) at the viewport centre; the clock at 0. */
  function Mount(innerWidth: real, innerHeight: real, mouse: Point, hasMouse: bool): (c: Controller)
    ensures c.core == c.prevCore == Point(innerWidth / 2.0, innerHeight / 2.0)
    ensures c.time == 0.0 && c.visible
    ensures c.mouse == mouse && c.hasMouse == hasMouse
    // the core starts inside the inset box that every frame keeps it in
    ensures innerWidth >= 2.0 * Margin && innerHeight >= 2.0 * Margin ==> InBox(c.core, innerWidth, innerHeight)
  {
    var centre := Point(innerWidth / 2.0, innerHeight / 2.0);
    Controller(centre, centre, mouse, hasMouse, 0.0, true)
  }

  /** The event listeners: pointer moves start tracking, leaving stops it and restarts the idle clock. */
  function Handle(c: Controller, e: Event): (r: Controller)
    ensures r.core == c.core && r.prevCore == c.prevCore
    ensures e.MouseMove? ==> r.hasMouse && r.mouse == e.p && r.time == c.time
    ensures (e.MouseLeave? || (e.DocumentMouseLeave? && !e.hasRelatedTarget)) ==> !r.hasMouse && r.time == 0.0
    ensures e.VisibilityChange? ==> r.visible == !e.hidden
    ensures !e.VisibilityChange? ==> r.visible == c.visible
    ensures e.DocumentMouseLeave? && e.hasRelatedTarget ==> r == c
  {
    match e
    case MouseMove(p) => c.(mouse := p, hasMouse := true)
    case MouseLeave => c.(hasMouse := false, time := 0.0)
    case DocumentMouseLeave(related) => if related then c else c.(hasMouse := false, time := 0.0)
    case VisibilityChange(hidden) => c.(visible := !hidden)
  }

  /** The point in the closed viewport [0, width] x [0, height]. */
  predicate InViewport(p: Point, width: real, height: real) {
    0.0 <= p.x <= width && 0.0 <= p.y <= height
  }

  /** The point in the margin-inset box [50, width - 50] x [50, height - 50]. */
  predicate InBox(p: Point, width: real, height: real) {
    Margin <= p.x <= width - Margin && Margin <= p.y <= height - Margin
  }

  /** `from` moved a `1/k` fraction of the way toward `to`. */
  function Ease(from: Point, to: Point, k: real): Point
    requires k != 0.0
  {
    Point(from.x + (to.x - from.x) / k, from.y + (to.y - from.y) / k)
  }

  /** `Math.max(margin, Math.min(hi, v))`: the pointer-mode clamp; the lower bound wins when the range is empty. */
  function ClampMaxMin(v: real, hi: real): (r: real)
    ensures r >= Margin
    ensures Margin <= hi ==> r <= hi
    ensures Margin <= v <= hi ==> r == v
  {
    if v < hi then (if v < Margin then Margin else v) else (if hi < Margin then Margin else hi)
  }

  /** The idle-mode clamp: `if (v < margin) v = margin; else if (v > hi) v = hi`. */
  function ClampIfElse(v: real, hi: real): (r: real)
    ensures Margin <= hi ==> Margin <= r <= hi
    ensures Margin <= v <= hi ==> r == v
    ensures v < Margin ==> r == Margin
  {
    if v < Margin then Margin else if v > hi then hi else v
  }

  /** The lemniscate of Bernoulli point at clock `time` around `centre` with the given radius. */
  function Lemniscate(m: Numerics, centre: Point, radius: real, time: real): Point {
    var s := m.sin(time);
    var c := m.cos(time);
    SquarePlusOnePositive(s);
    Point(centre.x + radius * m.sqrt(2.0) * c / (s * s + 1.0),
          centre.y + radius * m.sqrt(2.0) * c * s / (s * s + 1.0))
  }

  lemma SquarePlusOnePositive(s: real)
    ensures s * s + 1.0 > 0.0
  {
    if s < 0.0 {
      assert s * s == (-s) * (-s);
    }
  }

  /** The pointer is still tracked this frame: it was, and it lies inside the viewport. */
  predicate Tracking(c: Controller, width: real, height: real) {
    c.hasMouse && InViewport(c.mouse, width, height)
  }

  /** The idle target: the viewport centre while the core is outside the box, else the lemniscate point. */
  function IdleTarget(m: Numerics, core: Point, time: real, width: real, height: real): Point {
    var centre := Point(width / 2.0, height / 2.0);
    if !InBox(core, width, height) then centre
    else Lemniscate(m, centre, (if width < height then width else height) / 2.0 - 10.0, time)
  }

  /** The idle easing rate: 1/20 while recentring, 1/15 on the pattern. */
  function IdleRate(core: Point, width: real, height: real): real {
    if InBox(core, width, height) then 15.0 else 20.0
  }

  /** The core update of one visible frame (the out-of-viewport check, then one of the two modes). */
  function StepCore(m: Numerics, c: Controller, width: real, height: real): (r: Controller)
    ensures r.prevCore == c.prevCore && r.mouse == c.mouse && r.visible == c.visible
    ensures r.hasMouse == Tracking(c, width, height)
    // the idle clock: unchanged while tracking, advanced by exactly 0.003 otherwise, restarting from 0 when tracking just stopped
    ensures Tracking(c, width, height) ==> r.time == c.time
    ensures !c.hasMouse ==> r.time == c.time + IdleStep
    ensures c.hasMouse && !Tracking(c, width, height) ==> r.time == IdleStep
    // containment in the inset box
    ensures width >= 2.0 * Margin && height >= 2.0 * Margin ==> InBox(r.core, width, height)
    // easing toward the pointer, 1/10 of the way, whenever the clamp does not intervene
    ensures Tracking(c, width, height) && InBox(Ease(c.core, c.mouse, 10.0), width, height) ==>
      r.core == Ease(c.core, c.mouse, 10.0)
    // easing toward the idle target at the idle rate, whenever the clamp does not intervene
    ensures !Tracking(c, width, height) ==>
      var target := IdleTarget(m, c.core, r.time, width, height);
      InBox(Ease(c.core, target, IdleRate(c.core, width, height)), width, height) ==>
        r.core == Ease(c.core, target, IdleRate(c.core, width, height))
  {
    if Tracking(c, width, height) then
      var e := Ease(c.core, c.mouse, 10.0);
      c.(core := Point(ClampMaxMin(e.x, width - Margin), ClampMaxMin(e.y, height - Margin)))
    else
      var time := (if c.hasMouse then 0.0 else c.time) + IdleStep;
      var target := IdleTarget(m, c.core, time, width, height);
      var e := Ease(c.core, target, IdleRate(c.core, width, height));
      c.(core := Point(ClampIfElse(e.x, width - Margin), ClampIfElse(e.y, height - Margin)),
         hasMouse := false, time := time)
  }

  /** Recentring never takes the core farther from the centre on either axis. */
  lemma RecenteringApproaches(m: Numerics, c: Controller, width: real, height: real)
    requires width >= 2.0 * Margin && height >= 2.0 * Margin
    requires !Tracking(c, width, height) && !InBox(c.core, width, height)
    ensures var r := StepCore(m, c, width, height);
      && Abs(r.core.x - width / 2.0) <= Abs(c.core.x - width / 2.0)
      && Abs(r.core.y - height / 2.0) <= Abs(c.core.y - height / 2.0)
  {
    var r := StepCore(m, c, width, height);
    var centre := Point(width / 2.0, height / 2.0);
    var e := Ease(c.core, centre, 20.0);
    assert e.x - centre.x == (c.core.x - centre.x) * 19.0 / 20.0;
    assert e.y - centre.y == (c.core.y - centre.y) * 19.0 / 20.0;
  }

  function Abs(v: real): real {
    if v < 0.0 then -v else v
  }

  /** The whole simulation state: controller plus tentacles. */
  datatype Scene = Scene(ctl: Controller, tentacles: seq<Tentacle>)

  predicate Valid(m: Numerics, s: Scene) {
    forall i :: 0 <= i < |s.tentacles| ==> Shaped(m, s.tentacles[i])
  }

  /**
   * One animation frame: nothing while hidden; otherwise update the core, move
   * every tentacle from the previous core toward the new one, and remember
   * the new core as the previous one.
   */
  function Frame(m: Numerics, s: Scene, width: real, height: real): (r: Scene)
    requires Valid(m, s)
    ensures Valid(m, r)
    ensures !s.ctl.visible ==> r == s
    ensures s.ctl.visible ==>
      && r.ctl.prevCore == r.ctl.core
      && r.ctl == StepCore(m, s.ctl, width, height).(prevCore := r.ctl.core)
      && |r.tentacles| == |s.tentacles|
      && forall i :: 0 <= i < |r.tentacles| ==>
           r.tentacles[i] == Move(m, s.tentacles[i], s.ctl.prevCore, r.ctl.core)
  {
    if !s.ctl.visible then s
    else
      var c := StepCore(m, s.ctl, width, height);
      var ts := seq(|s.tentacles|, i requires 0 <= i < |s.tentacles| && Shaped(m, s.tentacles[i]) =>
        Move(m, s.tentacles[i], c.prevCore, c.core));
      Scene(c.(prevCore := c.core), ts)
  }

  /** A pointer-leave followed by a visible frame restarts the idle pattern: the clock reads one step. */
  lemma LeaveRestartsPattern(m: Numerics, s: Scene, leave: Event, width: real, height: real)
    requires Valid(m, s) && s.ctl.visible
    requires leave.MouseLeave? || leave == DocumentMouseLeave(false)
    ensures Frame(m, s.(ctl := Handle(s.ctl, leave)), width, height).ctl.time == IdleStep
  {
  }

  /** Leaving the viewport has the same effect on the next frame's clock as a pointer-leave event. */
  lemma ExitRestartsPattern(m: Numerics, s: Scene, width: real, height: real)
    requires Valid(m, s) && s.ctl.visible && s.ctl.hasMouse
    requires !InViewport(s.ctl.mouse, width, height)
    ensures Frame(m, s, width, height).ctl.time == Frame(m, s.(ctl := Handle(s.ctl, MouseLeave)), width, height).ctl.time
  {
  }

  /** `resizeCanvas`: a fresh batch of 500 tentacles replaces the old one; the controller is kept. */
  method Resize(m: Numerics, s: Scene, width: real, height: real, draws: seq<TentacleDraw>) returns (r: Scene)
    requires |draws| == TentacleCount
    requires forall i :: 0 <= i < |draws| ==> UnitDraw(draws[i])
    requires width >= 0.0 && height >= 0.0
    ensures r.ctl == s.ctl
    ensures Valid(m, r)
    ensures |r.tentacles| == TentacleCount
    ensures forall i :: 0 <= i < |r.tentacles| ==> Placed(m, r.tentacles[i], width, height)
    ensures forall i :: 0 <= i < |r.tentacles| ==> Drawn(r.tentacles[i], draws[i], width, height)
  {
    var ts := InitTentacles(m, TentacleCount, width, height, draws);
    r := Scene(s.ctl, ts);
  }
}
