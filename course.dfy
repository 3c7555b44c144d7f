/**
 * The course of one race (course.py): the eight-symbol road geometry drawn
 * by a random walk over {1, 2, 3}, and the colour palettes read from the
 * stage file. The file's lines arrive already parsed; `random.choice((-1, 1))`
 * arrives as the sequence of its seven picks.
 */
module Course {
  import opened Wrappers

  datatype Rgb = Rgb(r: int, g: int, b: int)

  /** Every colour defaults to black. */
  const Black: Rgb := Rgb(0, 0, 0)

  /** The start/finish and light lane-marker colour. */
  const White: Rgb := Rgb(200, 200, 200)

  datatype ColourKey =
    | Fog | LightRoad | DarkRoad | LightOffroad | DarkOffroad
    | LightWall | DarkWall | LightRumble | DarkRumble | Ceiling

  /** One line of a stage file: a colour, a strip or road length, or anything else. */
  datatype StageLine =
    | SetColour(key: ColourKey, rgb: Rgb)
    | SetStrip(strip: int)
    | SetRoad(road: int)
    | Ignored

  datatype CourseError = NoCeiling

  /**
   * A band's colour list, slot by slot: road, offroad, wall, rumble, fog,
   * lane marker (None: no markers) and ceiling. The start and finish lists
   * stop after the lane-marker slot.
   */
  type Palette = seq<Option<Rgb>>

  /** Everything the stage file decides. */
  datatype Stage = Stage(
    fog: Rgb, lightRoad: Rgb, darkRoad: Rgb, lightOffroad: Rgb, darkOffroad: Rgb,
    lightWall: Rgb, darkWall: Rgb, lightRumble: Rgb, darkRumble: Rgb, ceiling: Rgb,
    strip: int, road: int)

  // ---------------------------------------------------------------- geometry

  /** The picks of `random.choice((-1, 1))`, one per loop iteration. */
  predicate ValidSteps(steps: seq<int>)
  {
    |steps| == 7 && forall i :: 0 <= i < 7 ==> steps[i] == -1 || steps[i] == 1
  }

  /** One step of the walk, wrapping below 1 to 3 and above 3 to 1. */
  function Wrap(last: int, step: int): int
  {
    var s := last + step;
    if s < 1 then 3 else if s > 3 then 1 else s
  }

  /** The value of `last_seg` when iteration i of the walk starts. */
  function LastSeg(steps: seq<int>, i: nat): int
    requires i <= |steps|
  {
    if i == 0 then 0 else Wrap(LastSeg(steps, i - 1), steps[i - 1])
  }

  /** The geometry list: iteration i writes `last_seg` to slot i; slot 7 is never written. */
  function Geometry(steps: seq<int>): (g: seq<int>)
    requires |steps| == 7
    ensures |g| == 8
  {
    seq(8, i requires 0 <= i < 8 => if i < 7 then LastSeg(steps, i) else 0)
  }

  lemma {:induction false} LastSegRange(steps: seq<int>, i: nat)
    requires ValidSteps(steps) && 1 <= i <= 7
    ensures 1 <= LastSeg(steps, i) <= 3
    ensures i == 1 ==> LastSeg(steps, i) == 1 || LastSeg(steps, i) == 3
  {
    if i > 1 {
      LastSegRange(steps, i - 1);
    }
  }

  /**
   * The shape of every geometry the walk can produce: a straight at both
   * ends, curves in {1, 2, 3} in between, the first of them 1 or 3, and no
   * symbol repeated back to back.
   */
  lemma GeometryShape(steps: seq<int>)
    requires ValidSteps(steps)
    ensures var g := Geometry(steps);
      && g[0] == 0 && g[7] == 0
      && (forall i :: 1 <= i <= 6 ==> 1 <= g[i] <= 3)
      && (g[1] == 1 || g[1] == 3)
      && (forall i :: 0 <= i < 7 ==> g[i] != g[i + 1])
  {
    var g := Geometry(steps);
    forall i | 1 <= i <= 6
      ensures 1 <= g[i] <= 3
    {
      LastSegRange(steps, i);
    }
    LastSegRange(steps, 1);
    forall i | 0 <= i < 7
      ensures g[i] != g[i + 1]
    {
      if i > 0 {
        LastSegRange(steps, i);
      }
      if i + 1 < 7 {
        LastSegRange(steps, i + 1);
      }
    }
  }

  // ---------------------------------------------------------------- stage file

  /** The colour the last line for `key` sets, or `default` when no line does. */
  function Latest(lines: seq<StageLine>, key: ColourKey, default: Rgb): Rgb
  {
    if |lines| == 0 then default
    else
      var last := lines[|lines| - 1];
      if last.SetColour? && last.key == key then last.rgb
      else Latest(lines[..|lines| - 1], key, default)
  }

  /** The ceiling colour, which has no default. */
  function LatestCeiling(lines: seq<StageLine>): Option<Rgb>
  {
    if |lines| == 0 then None
    else
      var last := lines[|lines| - 1];
      if last.SetColour? && last.key == Ceiling then Some(last.rgb)
      else LatestCeiling(lines[..|lines| - 1])
  }

  /** The strip length of the last `strip = ` line, or `default`. */
  function LatestStrip(lines: seq<StageLine>, default: int): int
  {
    if |lines| == 0 then default
    else if lines[|lines| - 1].SetStrip? then lines[|lines| - 1].strip
    else LatestStrip(lines[..|lines| - 1], default)
  }

  /** The road length of the last `road = ` line, or `default`. */
  function LatestRoad(lines: seq<StageLine>, default: int): int
  {
    if |lines| == 0 then default
    else if lines[|lines| - 1].SetRoad? then lines[|lines| - 1].road
    else LatestRoad(lines[..|lines| - 1], default)
  }

  /** What reading the whole stage file yields. */
  function StageOf(lines: seq<StageLine>): Result<Stage, CourseError>
  {
    match LatestCeiling(lines)
    case None => Err(NoCeiling)
    case Some(ceiling) =>
      Ok(Stage(
        Latest(lines, Fog, Black), Latest(lines, LightRoad, Black), Latest(lines, DarkRoad, Black),
        Latest(lines, LightOffroad, Black), Latest(lines, DarkOffroad, Black),
        Latest(lines, LightWall, Black), Latest(lines, DarkWall, Black),
        Latest(lines, LightRumble, Black), Latest(lines, DarkRumble, Black),
        ceiling, LatestStrip(lines, 3), LatestRoad(lines, 2)))
  }

  /** A key no line mentions keeps its default. */
  lemma {:induction false} LatestUnset(lines: seq<StageLine>, key: ColourKey, default: Rgb)
    requires forall i :: 0 <= i < |lines| ==> !(lines[i].SetColour? && lines[i].key == key)
    ensures Latest(lines, key, default) == default
  {
    if |lines| > 0 {
      LatestUnset(lines[..|lines| - 1], key, default);
    }
  }

  /** The colour a key ends with is the one its last line sets, wherever that line is. */
  lemma {:induction false} LatestIsLastLine(lines: seq<StageLine>, key: ColourKey, default: Rgb, j: nat)
    requires j < |lines| && lines[j].SetColour? && lines[j].key == key
    requires forall i :: j < i < |lines| ==> !(lines[i].SetColour? && lines[i].key == key)
    ensures Latest(lines, key, default) == lines[j].rgb
  {
    if j < |lines| - 1 {
      LatestIsLastLine(lines[..|lines| - 1], key, default, j);
    }
  }

  /** A stage file without a `ceiling = ` line cannot build a course. */
  lemma {:induction false} NoCeilingFails(lines: seq<StageLine>)
    requires forall i :: 0 <= i < |lines| ==> !(lines[i].SetColour? && lines[i].key == Ceiling)
    ensures StageOf(lines) == Err(NoCeiling)
  {
    if |lines| > 0 {
      NoCeilingFails(lines[..|lines| - 1]);
    }
  }

  /** With no `strip = ` or `road = ` line the lengths stay 3 and 2. */
  lemma {:induction false} LengthDefaults(lines: seq<StageLine>)
    requires forall i :: 0 <= i < |lines| ==> !lines[i].SetStrip? && !lines[i].SetRoad?
    ensures LatestStrip(lines, 3) == 3 && LatestRoad(lines, 2) == 2
  {
    if |lines| > 0 {
      LengthDefaults(lines[..|lines| - 1]);
    }
  }

  /**
   * The line loop of the constructor: each recognised line overwrites one
   * local, the others are ignored, and the missing ceiling is reported.
   */
  method LoadStage(lines: seq<StageLine>) returns (r: Result<Stage, CourseError>)
    ensures r == StageOf(lines)
  {
    var fog, lightRoad, darkRoad := Black, Black, Black;
    var lightOffroad, darkOffroad := Black, Black;
    var lightWall, darkWall := Black, Black;
    var lightRumble, darkRumble := Black, Black;
    var ceiling: Option<Rgb> := None;
    var strip, road := 3, 2;
    var i := 0;
    while i < |lines|
      invariant 0 <= i <= |lines|
      invariant fog == Latest(lines[..i], Fog, Black)
      invariant lightRoad == Latest(lines[..i], LightRoad, Black)
      invariant darkRoad == Latest(lines[..i], DarkRoad, Black)
      invariant lightOffroad == Latest(lines[..i], LightOffroad, Black)
      invariant darkOffroad == Latest(lines[..i], DarkOffroad, Black)
      invariant lightWall == Latest(lines[..i], LightWall, Black)
      invariant darkWall == Latest(lines[..i], DarkWall, Black)
      invariant lightRumble == Latest(lines[..i], LightRumble, Black)
      invariant darkRumble == Latest(lines[..i], DarkRumble, Black)
      invariant ceiling == LatestCeiling(lines[..i])
      invariant strip == LatestStrip(lines[..i], 3)
      invariant road == LatestRoad(lines[..i], 2)
    {
      assert lines[..i + 1][..i] == lines[..i];
      match lines[i] {
        case SetColour(key, rgb) =>
          match key {
            case Fog => fog := rgb;
            case LightRoad => lightRoad := rgb;
            case DarkRoad => darkRoad := rgb;
            case LightOffroad => lightOffroad := rgb;
            case DarkOffroad => darkOffroad := rgb;
            case LightWall => lightWall := rgb;
            case DarkWall => darkWall := rgb;
            case LightRumble => lightRumble := rgb;
            case DarkRumble => darkRumble := rgb;
            case Ceiling => ceiling := Some(rgb);
          }
        case SetStrip(n) => strip := n;
        case SetRoad(n) => road := n;
        case Ignored =>
      }
      i := i + 1;
    }
    assert lines[..|lines|] == lines;
    if ceiling.None? {
      return Err(NoCeiling);
    }
    r := Ok(Stage(fog, lightRoad, darkRoad, lightOffroad, darkOffroad,
                  lightWall, darkWall, lightRumble, darkRumble, ceiling.value, strip, road));
  }

  // ---------------------------------------------------------------- palettes

  function StartColours(s: Stage): (p: Palette)
    ensures |p| == 6
    ensures forall i :: 0 <= i < 6 && i != 2 && i != 4 ==> p[i] == Some(White)
    ensures p[2] == Some(s.lightWall) && p[4] == Some(s.fog)
  {
    [Some(White), Some(White), Some(s.lightWall), Some(White), Some(s.fog), Some(White)]
  }

  function FinishColours(s: Stage): (p: Palette)
    ensures |p| == 6
    ensures forall i :: 0 <= i < 6 && i != 2 && i != 4 ==> p[i] == Some(White)
    ensures p[2] == Some(s.darkWall) && p[4] == Some(s.fog)
  {
    [Some(White), Some(White), Some(s.darkWall), Some(White), Some(s.fog), Some(White)]
  }

  function DarkColours(s: Stage): (p: Palette)
    ensures |p| == 7 && p[4] == Some(s.fog) && p[5] == None
  {
    [Some(s.darkRoad), Some(s.darkOffroad), Some(s.darkWall), Some(s.darkRumble),
     Some(s.fog), None, Some(s.ceiling)]
  }

  function LightColours(s: Stage): (p: Palette)
    ensures |p| == 7 && p[4] == Some(s.fog) && p[5] == Some(White)
  {
    [Some(s.lightRoad), Some(s.lightOffroad), Some(s.lightWall), Some(s.lightRumble),
     Some(s.fog), Some(White), Some(s.ceiling)]
  }

  /** A constructed course. Only the constructor writes its geometry. */
  class Course {
    const geometry: array<int>
    const strip: int
    const road: int
    const start: Palette
    const finish: Palette
    const darkColours: Palette
    const lightColours: Palette

    constructor (steps: seq<int>, stage: Stage)
      requires ValidSteps(steps)
      ensures fresh(geometry) && geometry.Length == 8 && geometry[..] == Geometry(steps)
      ensures strip == stage.strip && road == stage.road
      ensures start == StartColours(stage) && finish == FinishColours(stage)
      ensures darkColours == DarkColours(stage) && lightColours == LightColours(stage)
    {
      var g := new int[8](_ => 0);
      var lastSeg := 0;
      var i := 0;
      while i < 7
        invariant 0 <= i <= 7
        invariant lastSeg == LastSeg(steps, i)
        invariant forall j :: 0 <= j < i ==> g[j] == LastSeg(steps, j)
        invariant forall j :: i <= j < 8 ==> g[j] == 0
      {
        g[i] := lastSeg;
        lastSeg := lastSeg + steps[i];
        if lastSeg < 1 {
          lastSeg := 3;
        } else if lastSeg > 3 {
          lastSeg := 1;
        }
        i := i + 1;
      }
      geometry := g;
      strip := stage.strip;
      road := stage.road;
      start := StartColours(stage);
      finish := FinishColours(stage);
      darkColours := DarkColours(stage);
      lightColours := LightColours(stage);
    }
  }

  /** `Course(num)`: the walk, then the stage file, which fails without a ceiling colour. */
  method NewCourse(steps: seq<int>, lines: seq<StageLine>) returns (r: Result<Course, CourseError>)
    requires ValidSteps(steps)
    ensures r.Err? <==> LatestCeiling(lines).None?
    ensures r.Ok? ==>
      && fresh(r.value) && fresh(r.value.geometry) && r.value.geometry.Length == 8
      && r.value.geometry[..] == Geometry(steps)
      && StageOf(lines).Ok? && r.value.strip == StageOf(lines).value.strip
      && r.value.road == StageOf(lines).value.road
      && r.value.darkColours == DarkColours(StageOf(lines).value)
      && r.value.lightColours == LightColours(StageOf(lines).value)
      && r.value.start == StartColours(StageOf(lines).value)
      && r.value.finish == FinishColours(StageOf(lines).value)
  {
    var stage := LoadStage(lines);
    if stage.Err? {
      return Err(stage.error);
    }
    var c := new Course(steps, stage.value);
    r := Ok(c);
  }
}
