/**
 * The starfield background: a gradient plus a batch of stars sized to the
 * viewport area, regenerated on every resize, each twinkling with a shared
 * clock that advances 0.01 per frame.
 */
module Starfield {
  import opened Geometry

  /** Logical pixels of area per star. */
  const AreaPerStar: real := 15000.0

  /** Clock advance per frame. */
  const FrameStep: real := 0.01

  datatype Star = Star(x: real, y: real, size: real, opacity: real, twinkle: real)

  /** The gradient is fixed by its end point `(x1, y1)`: it runs from (0, 0) to the backing-store size. */
  datatype Gradient = Gradient(x1: real, y1: real)

  datatype Background = Background(canvasWidth: nat, canvasHeight: nat, dpr: real, gradient: Gradient, stars: seq<Star>, time: real)

  /** `window.devicePixelRatio || 1`: a zero ratio is replaced by 1. */
  function EffectiveDpr(dpr: real): (r: real)
    requires dpr >= 0.0
    ensures r > 0.0
    ensures dpr != 0.0 ==> r == dpr
  {
    if dpr == 0.0 then 1.0 else dpr
  }

  /** Canvas backing-store extent: `logical * dpr`, truncated to an integer by the canvas element. */
  function BackingSize(logical: nat, dpr: real): nat
    requires dpr > 0.0
  {
    NonNegProduct(logical as real, dpr);
    (logical as real * dpr).Floor
  }

  lemma NonNegProduct(a: real, b: real)
    requires a >= 0.0 && b >= 0.0
    ensures a * b >= 0.0
  {
  }

  /** `Math.floor(logicalWidth * logicalHeight / 15000)`. */
  function StarCount(logicalWidth: real, logicalHeight: real): (n: int)
    ensures logicalWidth >= 0.0 && logicalHeight >= 0.0 ==> n >= 0
    ensures n as real <= logicalWidth * logicalHeight / AreaPerStar < n as real + 1.0
  {
    if logicalWidth >= 0.0 && logicalHeight >= 0.0 then NonNegProduct(logicalWidth, logicalHeight); (logicalWidth * logicalHeight / AreaPerStar).Floor
    else (logicalWidth * logicalHeight / AreaPerStar).Floor
  }

  /** The five `Math.random()` draws of one star, each in [0, 1). */
  datatype StarDraw = StarDraw(rx: real, ry: real, rsize: real, ropacity: real, rtwinkle: real)

  predicate UnitDraw(d: StarDraw) {
    && 0.0 <= d.rx < 1.0 && 0.0 <= d.ry < 1.0 && 0.0 <= d.rsize < 1.0
    && 0.0 <= d.ropacity < 1.0 && 0.0 <= d.rtwinkle < 1.0
  }

  /** `r * extent` for a draw `r` in [0, 1) lies in [0, extent), given a positive extent. */
  function Spread(r: real, extent: real): (v: real)
    requires 0.0 <= r < 1.0 && extent > 0.0
    ensures 0.0 <= v < extent
    ensures v == r * extent
  {
    assert extent - r * extent == (1.0 - r) * extent;
    assert (1.0 - r) * extent > 0.0;
    r * extent
  }

  /** The star `createStars` builds from its five draws in a `w` by `h` logical viewport. */
  predicate Drawn(s: Star, d: StarDraw, w: real, h: real) {
    && s.x == d.rx * w && s.y == d.ry * h
    && s.size == d.rsize * 1.5 && s.opacity == d.ropacity
    && s.twinkle == d.rtwinkle * Pi * 2.0
  }

  /** One star from its draws. */
  function MakeStar(w: real, h: real, d: StarDraw): (s: Star)
    requires UnitDraw(d) && w > 0.0 && h > 0.0
    ensures 0.0 <= s.x < w && 0.0 <= s.y < h
    ensures 0.0 <= s.size < 1.5
    ensures 0.0 <= s.opacity < 1.0
    ensures 0.0 <= s.twinkle < 2.0 * Pi
    ensures Drawn(s, d, w, h)
  {
    assert d.rtwinkle * Pi * 2.0 == d.rtwinkle * (2.0 * Pi);
    Star(Spread(d.rx, w), Spread(d.ry, h), Spread(d.rsize, 1.5), d.ropacity, Spread(d.rtwinkle, 2.0 * Pi))
  }

  /** A star's position, size, opacity and phase lie in their ranges. */
  predicate InRange(s: Star, w: real, h: real) {
    && 0.0 <= s.x < w && 0.0 <= s.y < h
    && 0.0 <= s.size < 1.5 && 0.0 <= s.opacity < 1.0 && 0.0 <= s.twinkle < 2.0 * Pi
  }

  /** A positive star count leaves room only in a viewport of positive width and height. */
  lemma PositiveCountPositiveArea(w: real, h: real)
    requires w >= 0.0 && h >= 0.0 && StarCount(w, h) > 0
    ensures w > 0.0 && h > 0.0
  {
    assert w * h > 0.0;
  }

  /** `createStars()`: a fresh array of exactly `StarCount` stars, built from one draw each. */
  method CreateStars(w: real, h: real, draws: seq<StarDraw>) returns (stars: seq<Star>)
    requires w >= 0.0 && h >= 0.0
    requires |draws| == StarCount(w, h)
    requires forall i :: 0 <= i < |draws| ==> UnitDraw(draws[i])
    ensures |stars| == StarCount(w, h)
    ensures forall i :: 0 <= i < |stars| ==> InRange(stars[i], w, h)
    ensures forall i :: 0 <= i < |stars| ==> Drawn(stars[i], draws[i], w, h)
  {
    stars := [];
    if |draws| == 0 {
      return;
    }
    PositiveCountPositiveArea(w, h);
    var i := 0;
    while i < |draws|
      invariant 0 <= i <= |draws| && |stars| == i
      invariant forall k :: 0 <= k < i ==> InRange(stars[k], w, h)
      invariant forall k :: 0 <= k < i ==> Drawn(stars[k], draws[k], w, h)
    {
      stars := stars + [MakeStar(w, h, draws[i])];
      i := i + 1;
    }
  }

  /** `resizeCanvas()`: size the backing store, recreate the gradient, then the stars; the clock is kept. */
  method Resize(b: Background, innerWidth: nat, innerHeight: nat, dpr: real, draws: seq<StarDraw>) returns (r: Background)
    requires dpr >= 0.0
    requires var d := EffectiveDpr(dpr);
      |draws| == StarCount(BackingSize(innerWidth, d) as real / d, BackingSize(innerHeight, d) as real / d)
    requires forall i :: 0 <= i < |draws| ==> UnitDraw(draws[i])
    ensures r.time == b.time
    ensures r.canvasWidth == BackingSize(innerWidth, EffectiveDpr(dpr))
    ensures r.canvasHeight == BackingSize(innerHeight, EffectiveDpr(dpr))
    ensures r.gradient == Gradient(r.canvasWidth as real, r.canvasHeight as real)
    ensures |r.stars| == StarCount(r.canvasWidth as real / EffectiveDpr(dpr), r.canvasHeight as real / EffectiveDpr(dpr))
    // the previous stars are replaced, star i built from draw i in the logical viewport
    ensures forall i :: 0 <= i < |r.stars| ==>
      var w, h := r.canvasWidth as real / EffectiveDpr(dpr), r.canvasHeight as real / EffectiveDpr(dpr);
      InRange(r.stars[i], w, h) && Drawn(r.stars[i], draws[i], w, h)
  {
    var d := EffectiveDpr(dpr);
    var cw := BackingSize(innerWidth, d);
    var ch := BackingSize(innerHeight, d);
    var stars := CreateStars(cw as real / d, ch as real / d, draws);
    r := Background(cw, ch, dpr, Gradient(cw as real, ch as real), stars, b.time);
  }

  /** The twinkle factor `sin(time * 0.5 + phase) * 0.3 + 0.7`. */
  function Twinkle(m: Numerics, time: real, phase: real): real {
    m.sin(time * 0.5 + phase) * 0.3 + 0.7
  }

  /** The drawn alpha of a star, `opacity * twinkle`. */
  function Alpha(m: Numerics, s: Star, time: real): real {
    s.opacity * Twinkle(m, time, s.twinkle)
  }

  /** With sine in [-1, 1], the twinkle factor lies in [0.4, 1.0]. */
  lemma TwinkleBounds(m: Numerics, time: real, phase: real)
    requires SineBounded(m)
    ensures 0.4 <= Twinkle(m, time, phase) <= 1.0
  {
    var v := m.sin(time * 0.5 + phase);
    assert -1.0 <= v <= 1.0;
  }

  /** A star's alpha never goes negative nor exceeds its base opacity. */
  lemma AlphaBounds(m: Numerics, s: Star, time: real)
    requires SineBounded(m)
    requires s.opacity >= 0.0
    ensures 0.0 <= Alpha(m, s, time) <= s.opacity
  {
    var t := Twinkle(m, time, s.twinkle);
    TwinkleBounds(m, time, s.twinkle);
    assert s.opacity * t <= s.opacity * 1.0;
  }

  /** One animation frame: the stars are drawn, and the clock advances by 0.01. */
  function Frame(b: Background): (r: Background)
    ensures r.time - b.time == FrameStep
    ensures r.(time := b.time) == b
  {
    b.(time := b.time + FrameStep)
  }

  /** `n` consecutive frames. */
  function Frames(b: Background, n: nat): Background
    decreases n
  {
    if n == 0 then b else Frame(Frames(b, n - 1))
  }

  /** After `n` frames the clock has advanced by exactly `n * 0.01` and nothing else changed. */
  lemma {:induction false} FramesAdvanceClock(b: Background, n: nat)
    ensures Frames(b, n).time == b.time + n as real * FrameStep
    ensures Frames(b, n).(time := b.time) == b
  {
    if n > 0 {
      FramesAdvanceClock(b, n - 1);
    }
  }
}
