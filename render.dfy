/**
 * The arithmetic that feeds the drawing (render.py and the segment walk of
 * main.py `render`): road, rumble, lane-marker and wall widths, the fog
 * blend of the walls, the lane-marker layout, the size and horizon clip of
 * sprites, a racer's pose and exhaust, and the walk over the visible
 * segments that projects them and keeps the horizon clip line. The drawing
 * calls themselves are foreign; the model returns what they would be given.
 */
module Render {
  import opened Arith
  import opened Wrappers
  import opened Track
  import Course

  // ---------------------------------------------------------------- widths

  /** `render_wall_width`: how far beyond the road edge the wall stands. */
  function WallWidth(w: real): (r: real)
    ensures r * 0.45 == w
    ensures w > 0.0 ==> r > 2.0 * w
  {
    w / 0.45
  }

  /** `render_rumble_width`: half the projected road half-width. */
  function RumbleWidth(w: real, lanes: int): (r: real)
    ensures r + r == w
  {
    w / 2.0
  }

  /** The divisor of `render_lane_marker_width`: `max(10, 4·lanes)`. */
  function MarkerDivisor(lanes: int): (d: int)
    ensures d >= 10 && d >= 4 * lanes && (d == 10 || d == 4 * lanes)
  {
    if 4 * lanes >= 10 then 4 * lanes else 10
  }

  /** `render_lane_marker_width`: a tenth of the half-width at most. */
  function LaneMarkerWidth(w: real, lanes: int): (r: real)
    ensures r * (MarkerDivisor(lanes) as real) == w
    ensures w >= 0.0 ==> 0.0 <= r <= w / 10.0
  {
    w / (MarkerDivisor(lanes) as real)
  }

  /** The wall stands outside the rumble strip: its offset is more than four rumble widths. */
  lemma WallBeyondRumble(w: real, lanes: int)
    requires w > 0.0
    ensures WallWidth(w) > 4.0 * RumbleWidth(w, lanes)
  {
    assert WallWidth(w) > 2.0 * w;
  }

  /** A lane marker is narrower than the lane it marks (`2w / lanes` wide). */
  lemma MarkerNarrowerThanLane(w: real, lanes: int)
    requires w > 0.0 && lanes >= 1
    ensures LaneMarkerWidth(w, lanes) < w * 2.0 / (lanes as real)
  {
    var d := MarkerDivisor(lanes) as real;
    var m := LaneMarkerWidth(w, lanes);
    var lane := w * 2.0 / (lanes as real);
    assert m * d == w;
    assert lane * (lanes as real) == w * 2.0;
    assert d >= 4.0 * (lanes as real);
    MulMono(m, m, 4.0 * (lanes as real), d);
    assert m * 4.0 * (lanes as real) <= w;
    assert m * 4.0 * (lanes as real) < lane * 4.0 * (lanes as real);
  }

  // ---------------------------------------------------------------- fog

  /** A value between two integers truncates to a value between them. */
  lemma TruncBetween(v: real, lo: int, hi: int)
    requires (lo as real) <= v <= (hi as real)
    ensures lo <= Trunc(v) <= hi
  {
  }

  /** `wall - n·(wall - fog) / draw_dist` lies between fog and wall for 0 <= n <= draw_dist. */
  lemma BlendBetween(wall: int, fog: int, n: int, drawDist: int)
    requires 0 <= n <= drawDist && drawDist > 0
    ensures var v := wall as real - (n as real) * ((wall - fog) as real) / (drawDist as real);
      (if wall <= fog then wall else fog) as real <= v <= (if wall <= fog then fog else wall) as real
  {
    var t := (n as real) / (drawDist as real);
    var d := (wall - fog) as real;
    var e := (n as real) * d / (drawDist as real);
    assert 0.0 <= t <= 1.0;
    assert e == t * d;
    if d >= 0.0 {
      MulMono(0.0, t, d, d);
      MulMono(t, 1.0, d, d);
      assert 0.0 <= e <= d;
    } else {
      MulMono(0.0, t, -d, -d);
      MulMono(t, 1.0, -d, -d);
      assert t * (-d) == -e;
      assert d <= e <= 0.0;
    }
    assert wall as real - d == fog as real;
  }

  /**
   * One colour channel of a wall `n` segments ahead in `render_wall`: the
   * wall colour faded towards the fog colour over the draw distance, then
   * truncated by `int()`.
   */
  function FogChannel(wall: int, fog: int, n: int, drawDist: int): (c: int)
    requires drawDist > 0
    ensures n == 0 ==> c == wall
    ensures n == drawDist ==> c == fog
    ensures 0 <= n <= drawDist ==>
      (if wall <= fog then wall else fog) <= c <= (if wall <= fog then fog else wall)
  {
    var v := wall as real - (n as real) * ((wall - fog) as real) / (drawDist as real);
    assert n == drawDist ==> (n as real) * ((wall - fog) as real) / (drawDist as real) == (wall - fog) as real;
    if 0 <= n <= drawDist then
      BlendBetween(wall, fog, n, drawDist);
      TruncBetween(v, if wall <= fog then wall else fog, if wall <= fog then fog else wall);
      Trunc(v)
    else Trunc(v)
  }

  /** The fogged wall colour, channel by channel. */
  function FogBlend(wall: Course.Rgb, fog: Course.Rgb, n: int, drawDist: int): (c: Course.Rgb)
    requires drawDist > 0
    ensures c.r == FogChannel(wall.r, fog.r, n, drawDist)
    ensures c.g == FogChannel(wall.g, fog.g, n, drawDist)
    ensures c.b == FogChannel(wall.b, fog.b, n, drawDist)
  {
    Course.Rgb(FogChannel(wall.r, fog.r, n, drawDist), FogChannel(wall.g, fog.g, n, drawDist),
               FogChannel(wall.b, fog.b, n, drawDist))
  }

  /** The colour list a segment of the given band shows. */
  function BandPalette(b: Band, stage: Course.Stage): (p: Course.Palette)
    ensures |p| >= 6 && p[2].Some? && p[4] == Some(stage.fog)
  {
    match b
    case Light => Course.LightColours(stage)
    case Dark => Course.DarkColours(stage)
    case Start => Course.StartColours(stage)
    case Finish => Course.FinishColours(stage)
  }

  /** The colour `render_wall` fills a wall with: slot 2 of its palette fogged by slot 4. */
  function WallColour(b: Band, stage: Course.Stage, n: int, drawDist: int): (c: Course.Rgb)
    requires drawDist > 0
    ensures c == FogBlend(BandPalette(b, stage)[2].value, stage.fog, n, drawDist)
  {
    FogBlend(BandPalette(b, stage)[2].value, BandPalette(b, stage)[4].value, n, drawDist)
  }

  /** The nearest wall shows its own colour; every wall in range lies between it and the fog. */
  lemma WallFades(b: Band, stage: Course.Stage, n: int, drawDist: int)
    requires 0 <= n <= drawDist && drawDist > 0
    ensures var wall := BandPalette(b, stage)[2].value;
      var c := WallColour(b, stage, n, drawDist);
      && (n == 0 ==> c == wall)
      && ((wall.r <= stage.fog.r ==> wall.r <= c.r <= stage.fog.r) && (wall.r > stage.fog.r ==> stage.fog.r <= c.r <= wall.r))
      && ((wall.g <= stage.fog.g ==> wall.g <= c.g <= stage.fog.g) && (wall.g > stage.fog.g ==> stage.fog.g <= c.g <= wall.g))
      && ((wall.b <= stage.fog.b ==> wall.b <= c.b <= stage.fog.b) && (wall.b > stage.fog.b ==> stage.fog.b <= c.b <= wall.b))
  {
  }

  // ---------------------------------------------------------------- lane markers

  /** The centre of the i-th lane marker of a road drawn at x with half-width w. */
  function LaneX(x: real, w: real, lanes: int, i: int): real
    requires lanes != 0
  {
    x - w + (i as real) * (w * 2.0 / (lanes as real))
  }

  /** Every inner lane marker lies strictly inside the road. */
  lemma LaneInsideRoad(x: real, w: real, lanes: int, i: int)
    requires w > 0.0 && 0 < i < lanes
    ensures x - w < LaneX(x, w, lanes, i) < x + w
  {
    var lane := w * 2.0 / (lanes as real);
    assert lane * (lanes as real) == w * 2.0;
    MulMono(1.0, i as real, lane, lane);
    MulMono(i as real, (lanes - 1) as real, lane, lane);
    assert ((lanes - 1) as real) * lane == w * 2.0 - lane;
  }

  /** The markers are symmetric about the road's centre line. */
  lemma LaneMirror(x: real, w: real, lanes: int, i: int)
    requires lanes != 0
    ensures LaneX(x, w, lanes, i) + LaneX(x, w, lanes, lanes - i) == 2.0 * x
  {
    var lane := w * 2.0 / (lanes as real);
    assert lane * (lanes as real) == w * 2.0;
    assert (i as real) * lane + ((lanes - i) as real) * lane == (lanes as real) * lane;
  }

  /** One dashed marker: its centre at the near and at the far edge of the segment. */
  datatype Strip = Strip(near: real, far: real)

  /**
   * The lane-marker loop of `render_segment`: nothing on a band without a
   * marker colour, otherwise `lanes - 1` strips stepping one lane width at a
   * time from the left road edge.
   */
  method LaneMarkers(x1: real, w1: real, x2: real, w2: real, lanes: int, marker: Option<Course.Rgb>)
    returns (strips: seq<Strip>)
    requires marker.Some? ==> lanes != 0
    ensures marker.None? || lanes <= 1 ==> strips == []
    ensures marker.Some? && lanes > 1 ==> |strips| == lanes - 1
    ensures forall i :: 0 <= i < |strips| ==>
      lanes != 0 && strips[i] == Strip(LaneX(x1, w1, lanes, i + 1), LaneX(x2, w2, lanes, i + 1))
  {
    strips := [];
    if marker.Some? {
      var lanew1 := w1 * 2.0 / (lanes as real);
      var lanew2 := w2 * 2.0 / (lanes as real);
      var lanex1 := x1 - w1 + lanew1;
      var lanex2 := x2 - w2 + lanew2;
      var lane := 1;
      while lane < lanes
        invariant lanes > 1 ==> 1 <= lane <= lanes
        invariant |strips| == if lanes > 1 then lane - 1 else 0
        invariant lanex1 == LaneX(x1, w1, lanes, lane) && lanex2 == LaneX(x2, w2, lanes, lane)
        invariant forall i :: 0 <= i < |strips| ==>
          strips[i] == Strip(LaneX(x1, w1, lanes, i + 1), LaneX(x2, w2, lanes, i + 1))
      {
        strips := strips + [Strip(lanex1, lanex2)];
        lanex1 := lanex1 + lanew1;
        lanex2 := lanex2 + lanew2;
        lane := lane + 1;
      }
    }
  }

  /** Lane markers show on light, start and finish bands and never on dark ones. */
  lemma MarkersNotOnDark(b: Band, stage: Course.Stage)
    ensures BandPalette(b, stage)[5].None? <==> b == Dark
  {
  }

  // ---------------------------------------------------------------- sprites

  /** A sprite dimension on screen: `dim·scale·width/2·0.3·(1/40)·road_width`. */
  function SpriteDim(dim: real, scale: real, width: real, roadWidth: real): (d: real)
    ensures dim >= 0.0 && scale >= 0.0 && width >= 0.0 && roadWidth >= 0.0 ==> d >= 0.0
    ensures scale == 0.0 || dim == 0.0 ==> d == 0.0
  {
    (dim * scale * width / 2.0) * 0.3 * (1.0 / 40.0) * roadWidth
  }

  /** On-screen size is linear in the scale: doubling the scale doubles the sprite. */
  lemma SpriteDimLinear(dim: real, a: real, scale: real, width: real, roadWidth: real)
    ensures SpriteDim(dim, a * scale, width, roadWidth) == a * SpriteDim(dim, scale, width, roadWidth)
    ensures SpriteDim(dim, scale, width, roadWidth) == dim * SpriteDim(1.0, scale, width, roadWidth)
  {
    var u := SpriteDim(1.0, scale, width, roadWidth);
    assert SpriteDim(dim, scale, width, roadWidth) == dim * (scale * width * roadWidth * 0.00375);
    assert u == scale * width * roadWidth * 0.00375;
    assert SpriteDim(dim, a * scale, width, roadWidth) == a * (dim * (scale * width * roadWidth * 0.00375));
  }

  /** The part of a sprite below the horizon line `clip_y`; a falsy (zero) `clip_y` clips nothing. */
  function ClipHeight(destY: real, destH: real, clipY: real): (h: real)
    ensures h >= 0.0
    ensures clipY == 0.0 ==> h == 0.0
    ensures clipY != 0.0 ==> destY + destH - h <= clipY
    ensures clipY != 0.0 && destY + destH > clipY ==> destY + destH - h == clipY
  {
    if clipY != 0.0 then Max(0.0, destY + destH - clipY) else 0.0
  }

  /** What `render_sprite` blits: its top-left corner and its whole-pixel size. */
  datatype Blit = Blit(x: real, y: real, w: int, h: int)

  /**
   * `render_sprite`'s placement of a sprite already scaled to `dw` by `dh`:
   * offset players and items sideways and non-players upwards, then draw
   * only if it is not hidden behind the horizon and is less than 260 pixels
   * each way; non-players lose the clipped part of their height.
   */
  function Place(dw: real, dh: real, destX: real, destY: real, offsetX: real, offsetY: real, clipY: real,
                 isPlayer: bool, isItem: bool): (b: Option<Blit>)
    ensures var y := if isPlayer then destY else destY + dh * offsetY;
      var clipH := ClipHeight(y, dh, clipY);
      && (b.Some? <==> clipH < dh && dh < 260.0 && Trunc(dw) < 260)
      && (b.Some? ==> b.value.w == Trunc(dw) && b.value.y == y)
      && (b.Some? ==> b.value.x == if isPlayer || isItem then destX + dw * offsetX else destX)
      && (b.Some? ==> 0 <= b.value.h)
      && (b.Some? && isPlayer ==> b.value.h == Trunc(dh))
      && (b.Some? && !isPlayer ==> (b.value.h as real) <= dh - clipH)
      && (b.Some? && !isPlayer && clipY != 0.0 ==> b.value.y + (b.value.h as real) <= clipY)
  {
    var x := destX + (if !(isPlayer || isItem) then 0.0 else dw * offsetX);
    var y := if !isPlayer then destY + dh * offsetY else destY;
    var clipH := ClipHeight(y, dh, clipY);
    var w := Trunc(dw);
    if clipH < dh && dh < 260.0 && w < 260 then
      Some(Blit(x, y, w, if !isPlayer then Trunc(dh - clipH) else Trunc(dh)))
    else None
  }

  /** `render_sprite`: scale the sprite's own dimensions, then place it. */
  function SpriteBlit(spriteW: real, spriteH: real, scale: real, width: real, roadWidth: real,
                      destX: real, destY: real, offsetX: real, offsetY: real, clipY: real,
                      isPlayer: bool, isItem: bool): Option<Blit>
  {
    Place(SpriteDim(spriteW, scale, width, roadWidth), SpriteDim(spriteH, scale, width, roadWidth),
          destX, destY, offsetX, offsetY, clipY, isPlayer, isItem)
  }

  /**
   * `render_cpu` passes a zero clip line and marks the sprite as a player:
   * a racer is drawn exactly when its sprite is under 260 pixels each way,
   * at its full height, never clipped at the horizon.
   */
  lemma RacerNeverClipped(dw: real, dh: real, destX: real, destY: real)
    ensures var b := Place(dw, dh, destX, destY, -0.5, -1.0, 0.0, true, false);
      && (b.Some? <==> 0.0 < dh < 260.0 && Trunc(dw) < 260)
      && (b.Some? ==> b.value == Blit(destX - dw * 0.5, destY, Trunc(dw), Trunc(dh)))
  {
  }

  // ---------------------------------------------------------------- racer pose

  datatype Pose = TurnLeft | Straight | TurnRight

  /** The sprite `render_cpu` picks and the exhaust side it hands on (-1, 0, 1), if any. */
  datatype Look = Look(frozen: bool, pose: Pose, exhaust: Option<int>)

  /** The spin-out pose: `round(no_control·10) % 3` picks left, straight, right. */
  function SpinPose(noControl: real): Pose
  {
    var m := RoundHalfAway(noControl * 10.0) % 3;
    if m == 0 then TurnLeft else if m == 1 then Straight else TurnRight
  }

  /** The next pose of the spin: left, straight, right, left again. */
  function NextPose(p: Pose): Pose
  {
    match p
    case TurnLeft => Straight
    case Straight => TurnRight
    case TurnRight => TurnLeft
  }

  /** Rounding commutes with adding a whole number to a non-negative value. */
  lemma RoundShift(r: real, k: nat)
    requires r >= 0.0
    ensures RoundHalfAway(r + (k as real)) == RoundHalfAway(r) + k
  {
    assert ((r + (k as real)) + 0.5).Floor == (r + 0.5).Floor + k;
  }

  /** Stepping an integer by one or by three moves its remainder modulo 3 by one or not at all. */
  lemma ModThree(a: int)
    ensures (a + 1) % 3 == (if a % 3 == 2 then 0 else a % 3 + 1)
    ensures (a + 3) % 3 == a % 3
  {
    var q, r := a / 3, a % 3;
    assert a == q * 3 + r;
    if r == 2 {
      ModUnique(a + 1, 3, q + 1, 0);
    } else {
      ModUnique(a + 1, 3, q, r + 1);
    }
    ModUnique(a + 3, 3, q + 1, r);
  }

  /** Each further tenth of a second of lost control turns the spinning sprite one step on. */
  lemma SpinTurns(noControl: real)
    requires noControl >= 0.0
    ensures SpinPose(noControl + 0.1) == NextPose(SpinPose(noControl))
    ensures SpinPose(noControl + 0.3) == SpinPose(noControl)
  {
    var a := RoundHalfAway(noControl * 10.0);
    assert (noControl + 0.1) * 10.0 == noControl * 10.0 + 1.0;
    assert (noControl + 0.3) * 10.0 == noControl * 10.0 + 3.0;
    RoundShift(noControl * 10.0, 1);
    RoundShift(noControl * 10.0, 3);
    ModThree(a);
  }

  /** The exhaust side of a pose. */
  function Side(p: Pose): (s: int)
    ensures -1 <= s <= 1
  {
    match p
    case TurnLeft => -1
    case Straight => 0
    case TurnRight => 1
  }

  /**
   * `render_cpu`'s choice: the frozen sprite set while frozen; while out of
   * control the spin pose, otherwise the pose the steering asks for; and the
   * exhaust, on the pose's side, only for an unfrozen racer on the ground
   * and moving forward.
   */
  function RacerLook(frozen: real, noControl: real, steer: real, playerY: real, speed: real): (r: Look)
    ensures r.frozen <==> frozen > 0.0
    ensures noControl > 0.0 ==> r.pose == SpinPose(noControl)
    ensures noControl <= 0.0 ==>
      (r.pose == TurnLeft <==> steer < 0.0) && (r.pose == TurnRight <==> steer > 0.0)
    ensures r.exhaust.Some? <==> frozen <= 0.0 && playerY == 0.0 && speed > 0.0
    ensures r.exhaust.Some? ==> r.exhaust.value == Side(r.pose)
  {
    var pose :=
      if noControl > 0.0 then SpinPose(noControl)
      else if steer < 0.0 then TurnLeft
      else if steer > 0.0 then TurnRight
      else Straight;
    var smoke := if frozen > 0.0 then None else Some(Side(pose));
    Look(frozen > 0.0, pose, if playerY == 0.0 && speed > 0.0 then smoke else None)
  }

  // ---------------------------------------------------------------- segment walk

  /** `Camera`: a point relative to the camera. */
  datatype Camera = Camera(x: real, y: real, z: real)

  /** `Screen`: a projected point's scale, screen position and road half-width. */
  datatype Screen = Screen(scale: real, x: real, y: real, w: real)

  datatype Projected = Projected(camera: Camera, screen: Screen)

  /** The projections stored in a segment's two boundary points. */
  datatype SegScreen = SegScreen(p1: Projected, p2: Projected)

  /** Everything the walk reads of the racer whose view is drawn. */
  datatype View = View(
    cameraX: real,      // player_x · road_width
    cameraY: real,      // camera height plus the road's elevation under the racer
    position: real,
    trackLength: real,
    cameraDepth: real,
    width: int,
    height: int,
    roadWidth: real)

  /**
   * `project` for a segment point, whose world x is always 1: relative to
   * the camera, scaled by depth over distance, and rounded to the screen.
   */
  function Project(p: Point, cameraX: real, cameraY: real, cameraZ: real, cameraDepth: real,
                   width: int, height: int, roadWidth: real): (r: Projected)
    ensures r.camera == Camera(1.0 - cameraX, p.y - cameraY, p.z - cameraZ)
    ensures r.screen.scale == ProjectScale(cameraDepth, p.z - cameraZ)
    ensures p.y == cameraY ==> r.screen.y == (height / 2) as real
    ensures cameraDepth > 0.0 && height >= 0 && p.y < cameraY ==> r.screen.y >= (height / 2) as real
  {
    var cx, cy, cz := 1.0 - cameraX, p.y - cameraY, p.z - cameraZ;
    var s := ProjectScale(cameraDepth, cz);
    Projected(Camera(cx, cy, cz),
              Screen(s, ScreenX(width, s, cx) as real, ScreenY(height, s, cy) as real,
                     RoundHalfAway(s * roadWidth * (width as real) / 2.0) as real))
  }

  /** The rounded screen column of a camera-relative x. */
  function ScreenX(width: int, s: real, cx: real): int
  {
    RoundHalfAway(((width / 2) as real) + (s * cx * (width as real) / 2.0))
  }

  /**
   * The rounded screen row of a camera-relative height: a point level with
   * the camera lands on the horizon, one below it on or under the horizon.
   */
  function ScreenY(height: int, s: real, cy: real): (y: int)
    ensures cy == 0.0 ==> y == height / 2
    ensures s > 0.0 && cy < 0.0 && height >= 0 ==> y >= height / 2
  {
    var h := height as real;
    if cy == 0.0 then
      assert s * cy * h == 0.0;
      RoundHalfAway(((height / 2) as real) - (s * cy * h / 2.0))
    else if s > 0.0 && cy < 0.0 && height >= 0 then
      var q := s * (-cy);
      MulMono(0.0, q, 0.0, h);
      assert s * cy * h == -(q * h);
      RoundHalfAway(((height / 2) as real) - (s * cy * h / 2.0))
    else
      RoundHalfAway(((height / 2) as real) - (s * cy * h / 2.0))
  }

  /** The index of the segment the walk visits at step n. */
  function WalkIdx(base: nat, n: nat, count: nat): (t: nat)
    requires count > 0
    ensures t < count
  {
    (base + n) % count
  }

  /** `dx` at step n: the base segment's curve scaled back by how far into it the racer is, then each curve passed. */
  function Dx(segs: seq<Segment>, base: nat, basePercent: real, n: nat): real
    requires 0 < |segs| && base < |segs|
  {
    if n == 0 then -1.0 * segs[base].curve * basePercent
    else Dx(segs, base, basePercent, n - 1) + segs[WalkIdx(base, n - 1, |segs|)].curve
  }

  /** `x` at step n: the sideways drift accumulated from every `dx` before it. */
  function Xoff(segs: seq<Segment>, base: nat, basePercent: real, n: nat): real
    requires 0 < |segs| && base < |segs|
  {
    if n == 0 then 0.0 else Xoff(segs, base, basePercent, n - 1) + Dx(segs, base, basePercent, n - 1)
  }

  /**
   * The projections step n of the walk stores: both boundary points of the
   * visited segment, the far one shifted by this step's `dx`, with the
   * camera moved back one lap when the walk has wrapped past the last segment.
   */
  function StepScreen(segs: seq<Segment>, base: nat, basePercent: real, v: View, n: nat): SegScreen
    requires 0 < |segs| && base < |segs|
  {
    var t := WalkIdx(base, n, |segs|);
    var cz := v.position - (if t < base then v.trackLength else 0.0);
    var x := Xoff(segs, base, basePercent, n);
    var dx := Dx(segs, base, basePercent, n);
    SegScreen(Project(segs[t].p1, v.cameraX - x, v.cameraY, cz, v.cameraDepth, v.width, v.height, v.roadWidth),
              Project(segs[t].p2, v.cameraX - x - dx, v.cameraY, cz, v.cameraDepth, v.width, v.height, v.roadWidth))
  }

  /** The projections of the first n steps, in walk order. */
  function Steps(segs: seq<Segment>, base: nat, basePercent: real, v: View, n: nat): (r: seq<SegScreen>)
    requires 0 < |segs| && base < |segs|
    ensures |r| == n
  {
    if n == 0 then [] else Steps(segs, base, basePercent, v, n - 1) + [StepScreen(segs, base, basePercent, v, n - 1)]
  }

  /** Entry m of the recorded steps is step m's projection. */
  lemma {:induction false} StepsAt(segs: seq<Segment>, base: nat, basePercent: real, v: View, n: nat, m: nat)
    requires 0 < |segs| && base < |segs| && m < n
    ensures Steps(segs, base, basePercent, v, n)[m] == StepScreen(segs, base, basePercent, v, m)
  {
    if m < n - 1 {
      StepsAt(segs, base, basePercent, v, n - 1, m);
    }
  }

  /** The walk skips a segment behind the camera, below the clip line, or seen edge-on or from behind. */
  predicate Hidden(s: SegScreen, maxY: real, cameraDepth: real)
  {
    s.p1.camera.z <= cameraDepth || s.p2.screen.y >= maxY || s.p2.screen.y >= s.p1.screen.y
  }

  /** The segment projections after the walk has stored each step's, in order. */
  function Written(projs: seq<SegScreen>, base: nat, steps: seq<SegScreen>): (r: seq<SegScreen>)
    requires |projs| > 0
    ensures |r| == |projs|
  {
    if |steps| == 0 then projs
    else Written(projs, base, steps[..|steps| - 1])[WalkIdx(base, |steps| - 1, |projs|) := steps[|steps| - 1]]
  }

  /** While the walk is no longer than the track, each step's projection is the one left stored. */
  lemma {:induction false} WrittenAt(projs: seq<SegScreen>, base: nat, steps: seq<SegScreen>, n: nat)
    requires |projs| > 0 && |steps| <= |projs| && n < |steps|
    ensures Written(projs, base, steps)[WalkIdx(base, n, |projs|)] == steps[n]
  {
    var k := |steps| - 1;
    if n < k {
      WrittenAt(projs, base, steps[..k], n);
      assert steps[..k][n] == steps[n];
      WalkIdxDistinct(base, n, k, |projs|);
    }
  }

  /** Steps less than a whole track apart visit different segments. */
  lemma WalkIdxDistinct(base: nat, n: nat, m: nat, count: nat)
    requires count > 0 && n < m < count
    ensures WalkIdx(base, n, count) != WalkIdx(base, m, count)
  {
    var a, b := base + n, base + m;
    var q, r := a / count, a % count;
    assert a == q * count + r;
    if r + (m - n) < count {
      ModUnique(b, count, q, r + (m - n));
    } else {
      ModUnique(b, count, q + 1, r + (m - n) - count);
    }
  }

  /** Storing one more step's projection. */
  lemma WrittenSnoc(projs: seq<SegScreen>, base: nat, steps: seq<SegScreen>, s: SegScreen)
    requires |projs| > 0
    ensures Written(projs, base, steps + [s]) == Written(projs, base, steps)[WalkIdx(base, |steps|, |projs|) := s]
  {
    assert (steps + [s])[..|steps|] == steps;
  }

  /**
   * The clip line the walk keeps: it starts at the bottom of the screen,
   * each step records it, a step is drawn exactly when its segment is not
   * hidden behind it, and a drawn step lowers it to the segment's far edge.
   */
  predicate ClipRule(steps: seq<SegScreen>, clip: seq<real>, shown: seq<bool>, cameraDepth: real, height: real)
  {
    && |clip| == |steps| && |shown| == |steps|
    && (|clip| > 0 ==> clip[0] == height)
    && (forall n :: 0 <= n < |steps| ==> (shown[n] <==> !Hidden(steps[n], clip[n], cameraDepth)))
    && (forall n :: 0 <= n < |steps| - 1 ==> clip[n + 1] == if shown[n] then steps[n].p2.screen.y else clip[n])
  }

  /** The clip line after the steps so far. */
  function NextClip(steps: seq<SegScreen>, clip: seq<real>, shown: seq<bool>, height: real): real
    requires |clip| == |steps| && |shown| == |steps|
  {
    if |steps| == 0 then height
    else if shown[|steps| - 1] then steps[|steps| - 1].p2.screen.y
    else clip[|steps| - 1]
  }

  /** One more step keeps the rule. */
  lemma ClipRuleSnoc(steps: seq<SegScreen>, clip: seq<real>, shown: seq<bool>, cameraDepth: real, height: real,
                     maxY: real, s: SegScreen)
    requires ClipRule(steps, clip, shown, cameraDepth, height)
    requires maxY == NextClip(steps, clip, shown, height)
    ensures ClipRule(steps + [s], clip + [maxY], shown + [!Hidden(s, maxY, cameraDepth)], cameraDepth, height)
  {
    var steps', clip', shown' := steps + [s], clip + [maxY], shown + [!Hidden(s, maxY, cameraDepth)];
    forall n | 0 <= n < |steps'|
      ensures shown'[n] <==> !Hidden(steps'[n], clip'[n], cameraDepth)
    {
      if n < |steps| {
        assert steps'[n] == steps[n] && clip'[n] == clip[n] && shown'[n] == shown[n];
      }
    }
  }

  /** Under the rule the clip line never rises: each recorded value is at or above every later one. */
  lemma ClipFalls(steps: seq<SegScreen>, clip: seq<real>, shown: seq<bool>, cameraDepth: real, height: real)
    requires ClipRule(steps, clip, shown, cameraDepth, height)
    ensures forall i, j :: 0 <= i <= j < |clip| ==> clip[j] <= clip[i]
  {
    forall i, j | 0 <= i <= j < |clip|
      ensures clip[j] <= clip[i]
    {
      ClipFallsFrom(steps, clip, shown, cameraDepth, height, i, j);
    }
  }

  lemma {:induction false} ClipFallsFrom(steps: seq<SegScreen>, clip: seq<real>, shown: seq<bool>,
                                         cameraDepth: real, height: real, i: nat, j: nat)
    requires ClipRule(steps, clip, shown, cameraDepth, height) && i <= j < |clip|
    ensures clip[j] <= clip[i]
    decreases j - i
  {
    if i < j {
      ClipFallsFrom(steps, clip, shown, cameraDepth, height, i, j - 1);
      assert clip[j] <= clip[j - 1];
    }
  }

  /**
   * The projection part of one step of the walk: move the camera back a lap
   * once the walk has wrapped, and project both edges of the visited
   * segment, the far one shifted by this step's `dx`.
   */
  method ProjectStep(segs: seq<Segment>, base: nat, bp: real, v: View, n: nat, x: real, dx: real)
    returns (s: SegScreen)
    requires 0 < |segs| && base < |segs|
    requires x == Xoff(segs, base, bp, n) && dx == Dx(segs, base, bp, n)
    ensures s == StepScreen(segs, base, bp, v, n)
  {
    var t := (base + n) % |segs|;
    var looped := t < base;
    var cz := v.position - (if looped then v.trackLength else 0.0);
    var p1 := Project(segs[t].p1, v.cameraX - x, v.cameraY, cz, v.cameraDepth, v.width, v.height, v.roadWidth);
    var p2 := Project(segs[t].p2, v.cameraX - x - dx, v.cameraY, cz, v.cameraDepth, v.width, v.height, v.roadWidth);
    s := SegScreen(p1, p2);
  }

  /**
   * The first loop of `render` (main.py): for each of `draw_distance` steps
   * ahead of the racer, record the clip line, project the visited segment,
   * drift sideways by the accumulated curve, and, unless the segment is
   * hidden, draw its ground and lower the clip line to its far edge.
   */
  method Walk(segs: seq<Segment>, projs: seq<SegScreen>, v: View, drawDistance: nat)
    returns (projs': seq<SegScreen>, steps: seq<SegScreen>, clip: seq<real>, shown: seq<bool>)
    requires 0 < |segs| == |projs|
    ensures var base := SegIdx(v.position, |segs|);
      var bp := PercentRemaining(v.position, SegmentLength as real);
      && steps == Steps(segs, base, bp, v, drawDistance)
      && projs' == Written(projs, base, steps)
    ensures |clip| == drawDistance && |shown| == drawDistance
    ensures drawDistance > 0 ==> clip[0] == v.height as real
    ensures forall n :: 0 <= n < drawDistance ==> (shown[n] <==> !Hidden(steps[n], clip[n], v.cameraDepth))
    ensures forall n :: 0 <= n < drawDistance - 1 ==>
      clip[n + 1] == if shown[n] then steps[n].p2.screen.y else clip[n]
    ensures forall i, j :: 0 <= i <= j < drawDistance ==> clip[j] <= clip[i]
  {
    var count := |segs|;
    var base := SegIdx(v.position, count);
    var bp := PercentRemaining(v.position, SegmentLength as real);
    var maxY := v.height as real;
    var x := 0.0;
    var dx := -1.0 * segs[base].curve * bp;
    projs', steps, clip, shown := projs, [], [], [];
    for n := 0 to drawDistance
      invariant |steps| == n && |clip| == n && |shown| == n && |projs'| == count
      invariant x == Xoff(segs, base, bp, n) && dx == Dx(segs, base, bp, n)
      invariant steps == Steps(segs, base, bp, v, n)
      invariant projs' == Written(projs, base, steps)
      invariant ClipRule(steps, clip, shown, v.cameraDepth, v.height as real)
      invariant maxY == NextClip(steps, clip, shown, v.height as real)
    {
      var t := (base + n) % count;
      var s := ProjectStep(segs, base, bp, v, n, x, dx);
      WrittenSnoc(projs, base, steps, s);
      projs' := projs'[t := s];
      x := x + dx;
      dx := dx + segs[t].curve;
      ClipRuleSnoc(steps, clip, shown, v.cameraDepth, v.height as real, maxY, s);
      var hidden := Hidden(s, maxY, v.cameraDepth);
      clip := clip + [maxY];
      steps := steps + [s];
      shown := shown + [!hidden];
      if !hidden {
        maxY := s.p2.screen.y;
      }
    }
    ClipFalls(steps, clip, shown, v.cameraDepth, v.height as real);
  }

  /**
   * With every segment at its own index, one lap of segments per track
   * length, the walk's camera distance to the near edge of step n is the
   * distance from the racer to segment base + n: the lap shift keeps the
   * depth growing by one segment length a step across the finish line.
   */
  lemma WalkDepth(segs: seq<Segment>, base: nat, basePercent: real, v: View, n: nat)
    requires Shaped(segs) && 0 < |segs| && base < |segs| && n < |segs|
    requires v.trackLength == (|segs| as real) * L
    ensures StepScreen(segs, base, basePercent, v, n).p1.camera.z == ((base + n) as real) * L - v.position
  {
    var count := |segs|;
    var t := WalkIdx(base, n, count);
    if base + n < count {
      ModUnique(base + n, count, 0, base + n);
    } else {
      ModUnique(base + n, count, 1, base + n - count);
      assert t < base;
      assert (t as real) * L - (v.position - (count as real) * L) == ((base + n) as real) * L - v.position;
    }
  }

  /** The segments the walk draws have far edges strictly rising up the screen, in walk order. */
  lemma ShownRise(steps: seq<SegScreen>, clip: seq<real>, shown: seq<bool>, cameraDepth: real, i: nat, j: nat)
    requires |steps| == |clip| == |shown| && i < j < |steps| && shown[i] && shown[j]
    requires forall n :: 0 <= n < |steps| ==> (shown[n] <==> !Hidden(steps[n], clip[n], cameraDepth))
    requires forall n :: 0 <= n < |steps| - 1 ==> clip[n + 1] == if shown[n] then steps[n].p2.screen.y else clip[n]
    requires forall a, b :: 0 <= a <= b < |steps| ==> clip[b] <= clip[a]
    ensures steps[j].p2.screen.y < steps[i].p2.screen.y
  {
    assert clip[i + 1] == steps[i].p2.screen.y;
    assert clip[j] <= clip[i + 1];
  }

  // ---------------------------------------------------------------- band colours

  /** Python's `//` on integers: floor division. */
  function FloorDiv(a: int, b: int): (q: int)
    requires b != 0
    ensures b > 0 ==> q == a / b
  {
    if b > 0 then a / b else (-a) / (-b)
  }

  /**
   * `segments[t // band]` in Python: floor division, then a negative index
   * counting back from the end; None where Python raises (division by zero,
   * index out of range).
   */
  function ColourIndex(t: nat, band: int, count: nat): (r: Option<nat>)
    ensures r.Some? ==> r.value < count
    ensures band == 0 ==> r.None?
    ensures band >= 1 && t < count ==> r == Some(t / band)
  {
    if band == 0 then None
    else
      var q := FloorDiv(t, band);
      assert band >= 1 ==> 0 <= q <= t by {
        if band >= 1 {
          DivBounds(t, band);
        }
      }
      if 0 <= q < count then Some(q)
      else if -(count as int) <= q < 0 then Some((q + count) as nat)
      else None
  }

  /** A natural number divided by a positive band is a natural number no larger. */
  lemma DivBounds(t: nat, band: int)
    requires band >= 1
    ensures 0 <= t / band <= t
  {
    var q, r := t / band, t % band;
    assert t == band * q + r && 0 <= r < band && q >= 0;
    MulAtLeast(band, q);
  }

  lemma MulAtLeast(a: int, b: int)
    requires a >= 1 && b >= 0
    ensures a * b >= b
  {
    assert a * b == b + (a - 1) * b;
  }

  /** The quotient is the only one that leaves a remainder in [0, n). */
  lemma DivUnique(a: int, n: int, q: int, r: int)
    requires n > 0 && a == q * n + r && 0 <= r < n
    ensures a / n == q
  {
    ModUnique(a, n, q, r);
  }

  /**
   * Ground and walls take their colour from segment `t // band`, so one
   * colour runs over each `band` consecutive segments: the k-th run
   * [k·band, (k+1)·band) shows segment k's colours, and the first 2·band
   * segments of the track show the two recoloured start and finish segments.
   */
  lemma ColourRuns(t: nat, band: int, count: nat, k: nat)
    requires band >= 1 && t < count && k * band <= t < (k + 1) * band
    ensures ColourIndex(t, band, count) == Some(k)
  {
    assert (k + 1) * band == k * band + band;
    DivUnique(t, band, k, t - k * band);
  }

  /** One wall pair `render_wall` draws in the second loop of `render`. */
  datatype WallDraw = WallDraw(segment: nat, y1: real, y2: real, fogStep: nat, colourFrom: Option<nat>)

  /**
   * The second loop of `render`: from the farthest step back to step 1, the
   * walls of each visited segment with both edges held down to that step's
   * clip line, fogged by their distance, coloured by segment `t // strip`.
   */
  method Walls(projs: seq<SegScreen>, clip: seq<real>, base: nat, drawDistance: nat, strip: int)
    returns (walls: seq<WallDraw>)
    requires |projs| > 0 && |clip| == drawDistance
    ensures |walls| == if drawDistance > 0 then drawDistance - 1 else 0
    ensures forall i :: 0 <= i < |walls| ==>
      var n := drawDistance - 1 - i;
      var t := WalkIdx(base, n, |projs|);
      && walls[i].segment == t && walls[i].fogStep == n
      && walls[i].y1 == Min(clip[n], projs[t].p1.screen.y)
      && walls[i].y2 == Min(clip[n], projs[t].p2.screen.y)
      && walls[i].colourFrom == ColourIndex(t, strip, |projs|)
    ensures forall i :: 0 <= i < |walls| ==>
      1 <= walls[i].fogStep < drawDistance
      && walls[i].y1 <= clip[walls[i].fogStep] && walls[i].y2 <= clip[walls[i].fogStep]
  {
    walls := [];
    var n := drawDistance - 1;
    while n > 0
      invariant drawDistance > 0 ==> 0 <= n < drawDistance
      invariant drawDistance == 0 ==> n == -1
      invariant |walls| == if drawDistance > 0 then drawDistance - 1 - n else 0
      invariant forall i :: 0 <= i < |walls| ==>
        var m := drawDistance - 1 - i;
        var t := WalkIdx(base, m, |projs|);
        && walls[i].segment == t && walls[i].fogStep == m
        && walls[i].y1 == Min(clip[m], projs[t].p1.screen.y)
        && walls[i].y2 == Min(clip[m], projs[t].p2.screen.y)
        && walls[i].colourFrom == ColourIndex(t, strip, |projs|)
    {
      var t := (base + n) % |projs|;
      walls := walls + [WallDraw(t, Min(clip[n], projs[t].p1.screen.y), Min(clip[n], projs[t].p2.screen.y),
                                 n, ColourIndex(t, strip, |projs|))];
      n := n - 1;
    }
  }

  /** Every wall stays at or above the screen's bottom edge, the walk's first clip line. */
  lemma WallsAboveBottom(walls: seq<WallDraw>, clip: seq<real>, height: real, i: nat)
    requires 0 < |clip| && clip[0] == height && i < |walls|
    requires forall a, b :: 0 <= a <= b < |clip| ==> clip[b] <= clip[a]
    requires forall k :: 0 <= k < |walls| ==>
      1 <= walls[k].fogStep < |clip| && walls[k].y1 <= clip[walls[k].fogStep] && walls[k].y2 <= clip[walls[k].fogStep]
    ensures walls[i].y1 <= height && walls[i].y2 <= height
  {
    assert clip[walls[i].fogStep] <= clip[0];
  }
}
