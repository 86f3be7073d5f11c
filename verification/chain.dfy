/**
 * The tentacle chains of the cursor-follower canvas: a segment keeps its far
 * end `nextPos` exactly `length` away from its anchor `pos` at `angle`; a
 * tentacle is a fixed origin with a linked sequence of equal segments that is
 * re-aimed tail-to-head at a target every frame and, when slack, laid back
 * out from its origin.
 */
module Chain {
  import opened Common
  import opened Geometry

  datatype Segment = Segment(first: bool, pos: Point, length: real, angle: real, nextPos: Point)

  /** The segment invariant: the far end sits `length` from the anchor along `angle`. */
  predicate Consistent(m: Numerics, s: Segment) {
    s.nextPos == Project(m, s.pos, s.length, s.angle)
  }

  /** The Segment constructor; `anchor` is the tentacle origin for the first segment and the previous segment's far end otherwise. */
  function NewSegment(m: Numerics, anchor: Point, segmentLength: real, angle: real, isFirst: bool): (s: Segment)
    ensures s.pos == anchor && s.length == segmentLength && s.angle == angle && s.first == isFirst
    ensures Consistent(m, s)
  {
    Segment(isFirst, anchor, segmentLength, angle, Project(m, anchor, segmentLength, angle))
  }

  /**
   * `update(target)`: aim from the current anchor at `target`, then move the
   * anchor one length behind the target along the reversed angle.
   */
  function Update(m: Numerics, s: Segment, target: Point): (r: Segment)
    ensures r.first == s.first && r.length == s.length
    ensures r.angle == m.atan2(target.y - s.pos.y, target.x - s.pos.x)
    ensures r.pos == Project(m, target, s.length, r.angle - Pi)
    ensures Consistent(m, r)
  {
    var a := m.atan2(target.y - s.pos.y, target.x - s.pos.x);
    var p := Point(target.x + s.length * m.cos(a - Pi), target.y + s.length * m.sin(a - Pi));
    Segment(s.first, p, s.length, a, Project(m, p, s.length, a))
  }

  /** Once cosine and sine flip sign over half a turn, an updated segment's far end lands exactly on its target. */
  lemma UpdateLandsOnTarget(m: Numerics, s: Segment, target: Point)
    requires PiShift(m, m.atan2(target.y - s.pos.y, target.x - s.pos.x))
    ensures Update(m, s, target).nextPos == target
  {
    ProjectBack(m, target, s.length, Update(m, s, target).angle);
  }

  /** `fallback(target)`: move the anchor to `p`, keep the angle, recompute the far end. */
  function Fallback(m: Numerics, s: Segment, p: Point): (r: Segment)
    ensures r.pos == p
    ensures r.first == s.first && r.length == s.length && r.angle == s.angle
    ensures Consistent(m, r)
  {
    Segment(s.first, p, s.length, s.angle, Project(m, p, s.length, s.angle))
  }

  /** Falling back twice to the same point is falling back once, and the old anchor plays no part. */
  lemma FallbackIdempotent(m: Numerics, s: Segment, p: Point, q: Point)
    ensures Fallback(m, Fallback(m, s, q), p) == Fallback(m, s, p)
  {
  }

  datatype Tentacle = Tentacle(x: real, y: real, length: real, segmentCount: nat, segments: seq<Segment>, rand: real)

  function Origin(t: Tentacle): Point {
    Point(t.x, t.y)
  }

  /** Segment length of a tentacle, `length / segmentCount`. */
  function SegmentLength(t: Tentacle): real
    requires t.segmentCount > 0
  {
    t.length / t.segmentCount as real
  }

  /** The structure every tentacle keeps: `segmentCount` consistent segments of equal length, only the first flagged first. */
  predicate Shaped(m: Numerics, t: Tentacle) {
    && t.segmentCount > 0
    && |t.segments| == t.segmentCount
    && forall i :: 0 <= i < |t.segments| ==>
         && Consistent(m, t.segments[i])
         && t.segments[i].length == SegmentLength(t)
         && t.segments[i].first == (i == 0)
  }

  /** Segments laid out head to tail: the first starts at the origin, each next one where the previous one ends. */
  predicate ForwardLinked(segs: seq<Segment>, origin: Point) {
    && |segs| > 0
    && segs[0].pos == origin
    && forall i :: 0 < i < |segs| ==> segs[i].pos == segs[i - 1].nextPos
  }

  /** The sum of the segment lengths (the chain's path length). */
  function PathLength(segs: seq<Segment>): real {
    if |segs| == 0 then 0.0 else segs[0].length + PathLength(segs[1..])
  }

  /** A chain of `n` segments of length `l` has path length `n * l`. */
  lemma {:induction false} PathLengthUniform(segs: seq<Segment>, l: real)
    requires forall i :: 0 <= i < |segs| ==> segs[i].length == l
    ensures PathLength(segs) == |segs| as real * l
  {
    if |segs| > 0 {
      PathLengthUniform(segs[1..], l);
    }
  }

  /** A shaped tentacle's path length equals its total length. */
  lemma ShapedPathLength(m: Numerics, t: Tentacle)
    requires Shaped(m, t)
    ensures PathLength(t.segments) == t.length
  {
    PathLengthUniform(t.segments, SegmentLength(t));
  }

  /** The Tentacle constructor, with the `Math.random()` draw for `rand` passed in. */
  method NewTentacle(m: Numerics, x: real, y: real, length: real, segmentCount: nat, initialAngle: real, rand: real)
    returns (t: Tentacle)
    requires segmentCount > 0
    ensures t.x == x && t.y == y && t.length == length && t.segmentCount == segmentCount && t.rand == rand
    ensures Shaped(m, t)
    ensures ForwardLinked(t.segments, Origin(t))
    ensures forall i :: 0 <= i < |t.segments| ==> t.segments[i].angle == initialAngle
  {
    var segmentLength := length / segmentCount as real;
    var segs := [NewSegment(m, Point(x, y), segmentLength, initialAngle, true)];
    var i := 1;
    while i < segmentCount
      invariant 1 <= i <= segmentCount && |segs| == i
      invariant ForwardLinked(segs, Point(x, y))
      invariant forall j :: 0 <= j < i ==>
        && Consistent(m, segs[j]) && segs[j].length == segmentLength
        && segs[j].angle == initialAngle && segs[j].first == (j == 0)
    {
      segs := segs + [NewSegment(m, segs[i - 1].nextPos, segmentLength, initialAngle, false)];
      i := i + 1;
    }
    t := Tentacle(x, y, length, segmentCount, segs, rand);
  }

  /** The effect of the tail-to-head update loop of `move`: the last segment aimed at `aim`, each other one at its successor's new anchor. */
  predicate Reaimed(m: Numerics, before: seq<Segment>, after: seq<Segment>, aim: Point) {
    && |after| == |before| > 0
    && after[|after| - 1] == Update(m, before[|before| - 1], aim)
    && forall i :: 0 <= i < |after| - 1 ==> after[i] == Update(m, before[i], after[i + 1].pos)
  }

  /** The effect of the head-to-tail fallback loop of `move`: each segment re-anchored at its predecessor's new far end. */
  predicate FellBack(m: Numerics, before: seq<Segment>, after: seq<Segment>, origin: Point) {
    && |after| == |before| > 0
    && after[0] == Fallback(m, before[0], origin)
    && forall i :: 0 < i < |after| ==> after[i] == Fallback(m, before[i], after[i - 1].nextPos)
  }

  /** Re-aim a chain tail first, so each segment chases the new anchor of the one after it. */
  function ReaimChain(m: Numerics, segs: seq<Segment>, aim: Point): (r: seq<Segment>)
    requires |segs| > 0
    ensures Reaimed(m, segs, r, aim)
    decreases |segs|
  {
    if |segs| == 1 then
      [Update(m, segs[0], aim)]
    else
      var rest := ReaimChain(m, segs[1..], aim);
      [Update(m, segs[0], rest[0].pos)] + rest
  }

  /** Lay a chain out head first from `anchor`, keeping every angle. */
  function FallbackChain(m: Numerics, segs: seq<Segment>, anchor: Point): (r: seq<Segment>)
    requires |segs| > 0
    ensures FellBack(m, segs, r, anchor)
    decreases |segs|
  {
    var head := Fallback(m, segs[0], anchor);
    if |segs| == 1 then
      [head]
    else
      [head] + FallbackChain(m, segs[1..], head.nextPos)
  }

  /** Under the half-turn identity a re-aimed chain ends at the aim point and each far end meets the next anchor. */
  lemma ReaimedIsBackwardLinked(m: Numerics, before: seq<Segment>, after: seq<Segment>, aim: Point)
    requires PiShifted(m)
    requires Reaimed(m, before, after, aim)
    ensures after[|after| - 1].nextPos == aim
    ensures forall i :: 0 <= i < |after| - 1 ==> after[i].nextPos == after[i + 1].pos
  {
    var n := |after|;
    UpdateLandsOnTarget(m, before[n - 1], aim);
    forall i | 0 <= i < n - 1
      ensures after[i].nextPos == after[i + 1].pos
    {
      UpdateLandsOnTarget(m, before[i], after[i + 1].pos);
    }
  }

  /** A chain that fell back is laid out head to tail from its origin, with its angles untouched. */
  lemma FellBackIsForwardLinked(m: Numerics, before: seq<Segment>, after: seq<Segment>, origin: Point)
    requires FellBack(m, before, after, origin)
    ensures ForwardLinked(after, origin)
    ensures forall i :: 0 <= i < |after| ==> after[i].angle == before[i].angle
  {
    forall i | 0 <= i < |after|
      ensures after[i].angle == before[i].angle
    {
      if i == 0 {
        assert after[i] == Fallback(m, before[i], origin);
      } else {
        assert after[i] == Fallback(m, before[i], after[i - 1].nextPos);
      }
    }
  }

  /** Both passes of `move` keep every segment's length and first flag, and leave every segment consistent. */
  lemma PassesKeepShape(m: Numerics, before: seq<Segment>, after: seq<Segment>, p: Point)
    requires Reaimed(m, before, after, p) || FellBack(m, before, after, p)
    ensures forall i :: 0 <= i < |after| ==>
      && Consistent(m, after[i]) && after[i].length == before[i].length && after[i].first == before[i].first
  {
    forall i | 0 <= i < |after|
      ensures Consistent(m, after[i]) && after[i].length == before[i].length && after[i].first == before[i].first
    {
      if Reaimed(m, before, after, p) {
        if i == |after| - 1 {
          assert after[i] == Update(m, before[i], p);
        } else {
          assert after[i] == Update(m, before[i], after[i + 1].pos);
        }
      } else {
        if i == 0 {
          assert after[i] == Fallback(m, before[i], p);
        } else {
          assert after[i] == Fallback(m, before[i], after[i - 1].nextPos);
        }
      }
    }
  }

  /** The offset aim point `t` of `move`: back from `target` along the origin-to-target angle by 0.8 of (core-to-target distance + 5). */
  function OffsetAim(m: Numerics, t: Tentacle, core: Point, target: Point): Point {
    var angle := m.atan2(target.y - t.y, target.x - t.x);
    var dist := Distance(m, core, target) + 5.0;
    Point(target.x - 0.8 * dist * m.cos(angle), target.y - 0.8 * dist * m.sin(angle))
  }

  /** The point the last segment is aimed at: the offset point, unless its x coordinate is 0 (JavaScript falsy), then the target itself. */
  function AimPoint(m: Numerics, t: Tentacle, core: Point, target: Point): (r: Point)
    ensures OffsetAim(m, t, core, target).x != 0.0 ==> r == OffsetAim(m, t, core, target)
    ensures OffsetAim(m, t, core, target).x == 0.0 ==> r == target
  {
    var p := OffsetAim(m, t, core, target);
    if p.x != 0.0 then p else target
  }

  /** The chain is slack when the origin is within `length` plus the core-to-target distance of the target. */
  predicate Slack(m: Numerics, t: Tentacle, core: Point, target: Point) {
    Distance(m, Origin(t), target) <= t.length + Distance(m, core, target)
  }

  /** `move(core, target)`: re-aim tail to head, then lay the chain back out from its origin when slack. */
  function Move(m: Numerics, t: Tentacle, core: Point, target: Point): (r: Tentacle)
    requires Shaped(m, t)
    ensures Shaped(m, r)
    ensures r.x == t.x && r.y == t.y && r.length == t.length && r.segmentCount == t.segmentCount && r.rand == t.rand
    ensures !Slack(m, t, core, target) ==> Reaimed(m, t.segments, r.segments, AimPoint(m, t, core, target))
    ensures Slack(m, t, core, target) ==>
      && ForwardLinked(r.segments, Origin(t))
      && exists mid :: Reaimed(m, t.segments, mid, AimPoint(m, t, core, target)) && FellBack(m, mid, r.segments, Origin(t))
  {
    var mid := ReaimChain(m, t.segments, AimPoint(m, t, core, target));
    PassesKeepShape(m, t.segments, mid, AimPoint(m, t, core, target));
    if Slack(m, t, core, target) then
      var segs := FallbackChain(m, mid, Origin(t));
      FellBackIsForwardLinked(m, mid, segs, Origin(t));
      PassesKeepShape(m, mid, segs, Origin(t));
      t.(segments := segs)
    else
      t.(segments := mid)
  }

  /** The stroke colours of `show`. */
  datatype StrokeColor = Accent | NearCore | MidRange | FarFromCore

  datatype Stroke = Stroke(color: StrokeColor, width: real)

  /** `distance / length`; None stands for JavaScript's NaN from 0 / 0. */
  function DistRatio(dist: real, length: real): Option<real> {
    if length == 0.0 then None else Some(dist / length)
  }

  /** The colour bucket of `show`: the accent for rand below 0.05, otherwise by distance ratio (NaN compares false and falls to the last bucket). */
  function Bucket(rand: real, ratio: Option<real>): (c: StrokeColor)
    ensures c == Accent <==> rand < 0.05
    ensures rand >= 0.05 && ratio.Some? ==> (c == NearCore <==> ratio.value < 0.33)
    ensures rand >= 0.05 && ratio.Some? ==> (c == MidRange <==> 0.33 <= ratio.value < 0.66)
    ensures rand >= 0.05 ==> (c == FarFromCore <==> ratio.None? || ratio.value >= 0.66)
  {
    if rand < 0.05 then Accent
    else match ratio
      case None => FarFromCore
      case Some(q) => if q < 0.33 then NearCore else if q < 0.66 then MidRange else FarFromCore
  }

  /** How far a colour bucket is from the core, nearest first. */
  function Rank(c: StrokeColor): nat {
    match c
    case Accent => 0
    case NearCore => 0
    case MidRange => 1
    case FarFromCore => 2
  }

  /** A larger distance ratio never gives a nearer colour. */
  lemma BucketMonotone(rand: real, q1: real, q2: real)
    requires q1 <= q2
    ensures Rank(Bucket(rand, Some(q1))) <= Rank(Bucket(rand, Some(q2)))
  {
  }

  /** `show(ctx, target)`: the stroke drawn, or None when the origin is out of reach of the target. */
  function Show(m: Numerics, t: Tentacle, target: Point): (r: Option<Stroke>)
    ensures r.Some? <==> Distance(m, Origin(t), target) <= t.length
    ensures r.Some? ==> r.value.width == 2.0 * t.rand
    ensures r.Some? ==> r.value.color == Bucket(t.rand, DistRatio(Distance(m, Origin(t), target), t.length))
  {
    var dist := Distance(m, Origin(t), target);
    if dist <= t.length then Some(Stroke(Bucket(t.rand, DistRatio(dist, t.length)), 2.0 * t.rand)) else None
  }

  datatype Particle = Particle(center: Point, radius: real, near: bool)

  /** `showParticle(ctx, target)`: a dot at the origin, one unit larger when in reach. */
  function ShowParticle(m: Numerics, t: Tentacle, target: Point): (r: Particle)
    ensures r.center == Origin(t)
    ensures r.near <==> Distance(m, Origin(t), target) <= t.length
    ensures r.radius == if r.near then 2.0 * t.rand + 1.0 else 2.0 * t.rand
  {
    var dist := Distance(m, Origin(t), target);
    if dist <= t.length then Particle(Origin(t), 2.0 * t.rand + 1.0, true) else Particle(Origin(t), 2.0 * t.rand, false)
  }

  /** A particle is drawn in its near style exactly when the tentacle's stroke is drawn. */
  lemma ParticleNearIffStroked(m: Numerics, t: Tentacle, target: Point)
    ensures ShowParticle(m, t, target).near <==> Show(m, t, target).Some?
  {
  }

  /** The `Math.random()` draws that place one tentacle, each in [0, 1). */
  datatype TentacleDraw = TentacleDraw(rx: real, ry: real, rlength: real, rangle: real, rrand: real)

  predicate UnitDraw(d: TentacleDraw) {
    && 0.0 <= d.rx < 1.0 && 0.0 <= d.ry < 1.0 && 0.0 <= d.rlength < 1.0
    && 0.0 <= d.rangle < 1.0 && 0.0 <= d.rrand < 1.0
  }

  /** Segments per tentacle. */
  const SegmentsPerTentacle: nat := 30

  /** What `initTentacles` promises of each tentacle it builds inside a `width` by `height` viewport. */
  predicate Placed(m: Numerics, t: Tentacle, width: real, height: real) {
    && Shaped(m, t)
    && ForwardLinked(t.segments, Origin(t))
    && t.segmentCount == SegmentsPerTentacle
    && 50.0 <= t.length < 300.0
    && 0.0 <= t.x <= width && 0.0 <= t.y <= height
    && 0.0 <= t.rand < 1.0
    && forall j :: 0 <= j < |t.segments| ==> 0.0 <= t.segments[j].angle < 2.0 * Pi
  }

  /** The values `initTentacles` computes from a tentacle's draws: position, length, `rand` and the shared starting angle. */
  predicate Drawn(t: Tentacle, d: TentacleDraw, width: real, height: real) {
    && t.x == d.rx * width && t.y == d.ry * height
    && t.length == 250.0 * d.rlength + 50.0 && t.rand == d.rrand
    && forall j :: 0 <= j < |t.segments| ==> t.segments[j].angle == 2.0 * d.rangle * Pi
  }

  /** One tentacle of `initTentacles`, built from its five draws. */
  method PlaceTentacle(m: Numerics, width: real, height: real, d: TentacleDraw) returns (t: Tentacle)
    requires UnitDraw(d) && width >= 0.0 && height >= 0.0
    ensures Placed(m, t, width, height)
    ensures t.x == d.rx * width && t.y == d.ry * height && t.length == 250.0 * d.rlength + 50.0 && t.rand == d.rrand
    ensures forall j :: 0 <= j < |t.segments| ==> t.segments[j].angle == 2.0 * d.rangle * Pi
  {
    var x := Spread(d.rx, width);
    var y := Spread(d.ry, height);
    var length := 250.0 * d.rlength + 50.0;
    var initialAngle := 2.0 * d.rangle * Pi;
    UnitAngle(d.rangle);
    t := NewTentacle(m, x, y, length, SegmentsPerTentacle, initialAngle, d.rrand);
  }

  /** `initTentacles(count, width, height)`: a fresh batch of `count` tentacles built from the given draws. */
  method InitTentacles(m: Numerics, count: nat, width: real, height: real, draws: seq<TentacleDraw>)
    returns (ts: seq<Tentacle>)
    requires |draws| == count
    requires forall i :: 0 <= i < |draws| ==> UnitDraw(draws[i])
    requires width >= 0.0 && height >= 0.0
    ensures |ts| == count
    ensures forall i :: 0 <= i < count ==> Placed(m, ts[i], width, height)
    ensures forall i :: 0 <= i < count ==> Drawn(ts[i], draws[i], width, height)
  {
    ts := [];
    var i := 0;
    while i < count
      invariant 0 <= i <= count && |ts| == i
      invariant forall k :: 0 <= k < i ==> Placed(m, ts[k], width, height)
      invariant forall k :: 0 <= k < i ==> Drawn(ts[k], draws[k], width, height)
    {
      var t := PlaceTentacle(m, width, height, draws[i]);
      ts := ts + [t];
      i := i + 1;
    }
  }

  /** A draw in [0, 1) scales a non-negative extent into [0, extent], strictly below it when positive. */
  function Spread(r: real, extent: real): (v: real)
    requires 0.0 <= r < 1.0 && extent >= 0.0
    ensures 0.0 <= v <= extent
    ensures extent > 0.0 ==> v < extent
    ensures v == r * extent
  {
    assert extent - r * extent == (1.0 - r) * extent;
    assert (1.0 - r) * extent >= 0.0;
    assert extent > 0.0 ==> (1.0 - r) * extent > 0.0;
    r * extent
  }

  /** `2 * Math.random() * Math.PI` lies in [0, 2 pi). */
  lemma UnitAngle(r: real)
    requires 0.0 <= r < 1.0
    ensures 0.0 <= 2.0 * r * Pi < 2.0 * Pi
  {
    assert 2.0 * r * Pi == Spread(r, 2.0 * Pi);
  }
}
