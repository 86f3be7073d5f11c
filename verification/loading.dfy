/**
 * The loading screen's progress: 90 points for loaded assets, 10 for time
 * spent (saturating at the 1.8 s minimum), capped at 100 and replaced by 100
 * when loading ends. Times are whole milliseconds since the start.
 */
module Loading {

  /** The minimum loading time in milliseconds. */
  const MinimumMs: int := 1800

  /** The share of the bar earned by assets and by time. */
  const AssetShare: real := 90.0
  const TimeShare: real := 10.0

  /** The value the bar is set to when loading ends. */
  const Final: real := 100.0

  /** `images.length || 1`: never zero, so it can divide. */
  function TotalAssets(imageCount: nat): (n: nat)
    ensures n >= 1
    ensures imageCount > 0 ==> n == imageCount
    ensures imageCount == 0 ==> n == 1
  {
    if imageCount > 0 then imageCount else 1
  }

  function Min(a: real, b: real): real { if a <= b then a else b }

  /** `Math.min(elapsed, 1800) / 1800 * 10`. */
  function TimeProgress(elapsed: int): (r: real)
    ensures elapsed >= 0 ==> 0.0 <= r <= TimeShare
    ensures elapsed >= MinimumMs ==> r == TimeShare
    ensures elapsed < MinimumMs ==> r < TimeShare
  {
    var capped := if elapsed <= MinimumMs then elapsed else MinimumMs;
    capped as real / MinimumMs as real * TimeShare
  }

  /** `(loadedAssets / totalAssets) * 90`. */
  function AssetProgress(loaded: nat, total: nat): (r: real)
    requires total >= 1
    ensures loaded <= total ==> 0.0 <= r <= AssetShare
    ensures loaded == 0 ==> r == 0.0
    ensures loaded == total ==> r == AssetShare
  {
    loaded as real / total as real * AssetShare
  }

  /** `updateProgress`: the sum, capped at 100. */
  function Progress(loaded: nat, imageCount: nat, elapsed: int): (r: real)
    ensures loaded <= TotalAssets(imageCount) && elapsed >= 0 ==> 0.0 <= r <= Final
    ensures r <= Final
  {
    Min(AssetProgress(loaded, TotalAssets(imageCount)) + TimeProgress(elapsed), Final)
  }

  /** With no images nothing is ever loaded, so the bar shows at most the time share until it is set to 100. */
  lemma NoImagesTimeOnly(elapsed: int)
    requires elapsed >= 0
    ensures Progress(0, 0, elapsed) == TimeProgress(elapsed)
    ensures Progress(0, 0, elapsed) <= TimeShare < Final
  {
  }

  /** Time spent and assets loaded never move the bar backwards. */
  lemma ProgressMonotone(l1: nat, l2: nat, imageCount: nat, e1: int, e2: int)
    requires l1 <= l2 && e1 <= e2
    ensures Progress(l1, imageCount, e1) <= Progress(l2, imageCount, e2)
  {
    var t := TotalAssets(imageCount) as real;
    assert l1 as real / t <= l2 as real / t;
    var c1 := if e1 <= MinimumMs then e1 else MinimumMs;
    var c2 := if e2 <= MinimumMs then e2 else MinimumMs;
    assert c1 as real / MinimumMs as real <= c2 as real / MinimumMs as real;
  }

  /** `Math.max(0, 1800 - elapsed)`: the wait left before the bar may finish. */
  function Remaining(elapsed: int): (r: nat)
    ensures elapsed + r >= MinimumMs
    ensures elapsed < MinimumMs ==> elapsed + r == MinimumMs
    ensures elapsed >= MinimumMs ==> r == 0
  {
    if MinimumMs - elapsed > 0 then MinimumMs - elapsed else 0
  }

  /** Once every asset is loaded and the wait is over, the interval's value is already the final 100. */
  lemma DoneMeansFull(imageCount: nat, elapsed: int)
    requires elapsed >= MinimumMs
    ensures Progress(TotalAssets(imageCount), imageCount, elapsed) == Final
  {
  }
}
