/** The galaxy loading screen: background stars, four spiral arms of stars,
    the time-based progress bar, the rotation accumulator and the padded
    culling test. Angles are kept in units of pi and the cos/sin projection of
    arm stars is not modelled: an arm star is its polar position. */
module Galaxy {
  import opened Common

  const BackgroundCount: nat := 150
  const ArmCount: nat := 4
  const StarsPerArm: nat := 80
  const ArmRadius: real := 300.0
  const Duration: real := 10000.0
  const RotationStep: real := 0.005
  const CullMargin: real := 50.0

  datatype Star = Star(x: real, y: real, z: real, size: real, brightness: real, speed: real)

  /** The six draws one background star consumes, in the order the source draws them. */
  datatype StarDraw = StarDraw(x: Draw, y: Draw, z: Draw, size: Draw, brightness: Draw, speed: Draw)

  /** The ranges a background star's fields are drawn from. */
  predicate ValidBackgroundStar(s: Star, width: nat, height: nat) {
    0.0 <= s.x <= width as real && 0.0 <= s.y <= height as real
    && 0.0 <= s.z < 1000.0
    && 0.5 <= s.size < 2.5
    && 0.0 <= s.brightness < 1.0
    && 0.1 <= s.speed < 0.6
  }

  function BackgroundStar(d: StarDraw, width: nat, height: nat): Star {
    Star(Across(d.x, width), Across(d.y, height), Scale(d.z, 1000.0),
         Scale(d.size, 2.0) + 0.5, d.brightness, Scale(d.speed, 0.5) + 0.1)
  }

  /** The 150 background stars, each inside the window and within its drawn ranges. */
  function BackgroundStars(draws: seq<StarDraw>, width: nat, height: nat): (stars: seq<Star>)
    requires |draws| == BackgroundCount
    ensures |stars| == 150
    ensures forall i :: 0 <= i < |stars| ==> ValidBackgroundStar(stars[i], width, height)
    ensures forall i :: 0 <= i < |stars| ==> stars[i].brightness == draws[i].brightness
  {
    seq(|draws|, i requires 0 <= i < |draws| => BackgroundStar(draws[i], width, height))
  }

  /** The offset angle of arm a, in units of pi: `a * 2pi / 4`. */
  function ArmAngle(a: nat): real {
    a as real * 2.0 / ArmCount as real
  }

  /** Consecutive arms are a quarter turn (pi/2) apart, and the four arms cover
      the offsets 0, pi/2, pi and 3pi/2. */
  lemma ArmsQuarterTurnApart(a: nat)
    ensures ArmAngle(a + 1) - ArmAngle(a) == 0.5
    ensures a < ArmCount ==> 0.0 <= ArmAngle(a) < 2.0
  {
  }

  /** The position along the arm: `t = i / 80`. */
  function ArmT(i: nat): real {
    i as real / StarsPerArm as real
  }

  /** `50 + t * 300`. */
  function StarRadius(i: nat): real {
    50.0 + ArmT(i) * 300.0
  }

  /** The spiral: `armAngle + t * 1.5pi`, in units of pi. */
  function StarAngle(a: nat, i: nat): real {
    ArmAngle(a) + ArmT(i) * 1.5
  }

  /** The radius schedule starts at 50, strictly increases along the arm,
      and stays below 350. */
  lemma RadiusSchedule(i: nat, j: nat)
    requires i < j < StarsPerArm
    ensures StarRadius(0) == 50.0
    ensures StarRadius(i) < StarRadius(j)
    ensures 50.0 <= StarRadius(i) && StarRadius(j) < 350.0
  {
  }

  /** An arm star: its polar position and its drawn attributes. */
  datatype ArmStar = ArmStar(radius: real, angle: real, z: real, size: real, brightness: real, speed: real)

  /** The four draws one arm star consumes. */
  datatype ArmDraw = ArmDraw(z: Draw, size: Draw, brightness: Draw, speed: Draw)

  datatype Arm = Arm(angle: real, radius: real, stars: seq<ArmStar>)

  predicate ValidArmStar(s: ArmStar) {
    0.0 <= s.z < 100.0
    && 1.0 <= s.size < 4.0
    && 0.2 <= s.brightness < 1.0
    && 0.01 <= s.speed < 0.03
    && 50.0 <= s.radius < 350.0
  }

  function MakeArmStar(a: nat, i: nat, d: ArmDraw): ArmStar {
    ArmStar(StarRadius(i), StarAngle(a, i), Scale(d.z, 100.0), Scale(d.size, 3.0) + 1.0,
            Scale(d.brightness, 0.8) + 0.2, Scale(d.speed, 0.02) + 0.01)
  }

  /** Arm a: its offset angle, radius 300, and 80 stars along the spiral. */
  function MakeArm(a: nat, draws: seq<ArmDraw>): (arm: Arm)
    requires |draws| == StarsPerArm
    ensures arm.angle == ArmAngle(a) && arm.radius == ArmRadius && |arm.stars| == 80
    ensures forall i :: 0 <= i < |arm.stars| ==>
      ValidArmStar(arm.stars[i]) && arm.stars[i].radius == StarRadius(i)
      && arm.stars[i].angle == StarAngle(a, i)
  {
    var stars := seq(|draws|, i requires 0 <= i < |draws| => MakeArmStar(a, i, draws[i]));
    forall i | 0 <= i < |stars| ensures ValidArmStar(stars[i]) {
      if i + 1 < |stars| { RadiusSchedule(i, i + 1); } else { RadiusSchedule(0, i); }
    }
    Arm(ArmAngle(a), ArmRadius, stars)
  }

  /** The whole galaxy: four arms of 80 stars, arm a at offset `a * pi/2`. */
  function MakeGalaxy(draws: seq<seq<ArmDraw>>): (arms: seq<Arm>)
    requires |draws| == ArmCount
    requires forall a :: 0 <= a < |draws| ==> |draws[a]| == StarsPerArm
    ensures |arms| == 4
    ensures forall a :: 0 <= a < |arms| ==>
      arms[a].angle == ArmAngle(a) && arms[a].radius == 300.0 && |arms[a].stars| == 80
    ensures forall a, i :: 0 <= a < |arms| && 0 <= i < |arms[a].stars| ==>
      ValidArmStar(arms[a].stars[i]) && arms[a].stars[i].radius == StarRadius(i)
  {
    seq(|draws|, a requires 0 <= a < |draws| => MakeArm(a, draws[a]))
  }

  /** `Math.min(elapsed / 10000 * 100, 100)`. */
  function GalaxyProgress(elapsed: real): (p: real)
    ensures p <= 100.0
    ensures elapsed >= 0.0 ==> 0.0 <= p
    ensures p == 100.0 <==> elapsed >= Duration
  {
    var raw := elapsed / Duration * 100.0;
    if raw < 100.0 then raw else 100.0
  }

  /** More elapsed time never shows less progress. */
  lemma GalaxyProgressMonotone(t: real, u: real)
    requires t <= u
    ensures GalaxyProgress(t) <= GalaxyProgress(u)
  {
  }

  /** The progress values the frame loop displays for the given frame times:
      one per frame, re-scheduling only while the value is below 100. */
  function ProgressFrames(times: seq<real>): (shown: seq<real>)
    ensures |shown| <= |times|
    ensures forall i :: 0 <= i < |shown| ==> shown[i] == GalaxyProgress(times[i])
    ensures forall i :: 0 <= i < |shown| - 1 ==> shown[i] < 100.0
  {
    if |times| == 0 then []
    else
      var p := GalaxyProgress(times[0]);
      if p < 100.0 then [p] + ProgressFrames(times[1..]) else [p]
  }

  /** The loop runs through every frame before the duration has elapsed and
      stops right after the first frame at or past it, which shows 100. */
  lemma {:induction false} ProgressFramesStop(times: seq<real>, k: nat)
    requires k < |times| && times[k] >= Duration
    requires forall i :: 0 <= i < k ==> times[i] < Duration
    ensures |ProgressFrames(times)| == k + 1
    ensures ProgressFrames(times)[k] == 100.0
    decreases k
  {
    if k > 0 {
      ProgressFramesStop(times[1..], k - 1);
    }
  }

  /** One animation frame: the rotation grows by 0.005 and is never reset. */
  function Rotate(r: real): real {
    r + RotationStep
  }

  function RotateFrames(r: real, n: nat): real
    decreases n
  {
    if n == 0 then r else RotateFrames(Rotate(r), n - 1)
  }

  /** After n frames the rotation is exactly n * 0.005 more. */
  lemma {:induction false} RotationAfter(r: real, n: nat)
    ensures RotateFrames(r, n) == r + n as real * RotationStep
    decreases n
  {
    if n > 0 {
      RotationAfter(Rotate(r), n - 1);
    }
  }

  /** A star is drawn only when its screen position is within 50 pixels of the canvas. */
  predicate Visible(sx: real, sy: real, width: real, height: real) {
    -CullMargin <= sx <= width + CullMargin && -CullMargin <= sy <= height + CullMargin
  }

  lemma SquareAbove(y: real, r: real)
    requires r >= 0.0
    ensures y > r ==> y * y > r * r
  {
    if y > r {
      assert y * (y - r) > 0.0;
      assert r * (y - r) >= 0.0;
    }
  }

  lemma SquareBound(x: real, r: real)
    requires r >= 0.0 && x * x <= r * r
    ensures -r <= x <= r
  {
    SquareAbove(x, r);
    SquareAbove(-x, r);
  }

  /** On a canvas of at least 600 by 600, no arm star is ever culled: any
      rotation of a point at radius below 350 about the centre stays within
      the padded bounds. The rotation is abstracted as any offset (rx, ry) of
      the same length as the radius. */
  lemma ArmStarsAlwaysVisible(width: real, height: real, radius: real, rx: real, ry: real)
    requires width >= 600.0 && height >= 600.0
    requires 0.0 <= radius < 350.0 && rx * rx + ry * ry == radius * radius
    ensures Visible(width / 2.0 + rx, height / 2.0 + ry, width, height)
  {
    assert rx * rx <= radius * radius && ry * ry <= radius * radius;
    SquareBound(rx, radius);
    SquareBound(ry, radius);
  }

  /** `z / 1000`: how far back a background star is. */
  function Parallax(z: real): real {
    z / 1000.0
  }

  /** The depth cues of a background star: the parallax factor is in [0, 1), the
      drawn radius is scaled by a factor in (0.5, 1], the brightness by one in
      (0.7, 1], so a drawn star keeps a positive radius and an alpha in [0, 1). */
  lemma DepthCues(s: Star, width: nat, height: nat)
    requires ValidBackgroundStar(s, width, height)
    ensures var pf := Parallax(s.z);
      0.0 <= pf < 1.0
      && 0.5 < 1.0 - pf * 0.5 <= 1.0
      && 0.7 < 1.0 - pf * 0.3 <= 1.0
      && 0.0 < s.size * (1.0 - pf * 0.5) < 2.5
      && 0.0 <= s.brightness * (1.0 - pf * 0.3) < 1.0
  {
    var pf := Parallax(s.z);
    var k := 1.0 - pf * 0.5;
    var b := 1.0 - pf * 0.3;
    assert s.size * k <= s.size * 1.0;
    assert 0.7 < b <= 1.0;
    assert s.brightness * b <= s.brightness by { assert s.brightness * (1.0 - b) >= 0.0; }
    assert 0.0 <= s.brightness * b;
  }
}
