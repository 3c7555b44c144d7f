/**
 * One racer (player.py): the conversion of the integer character and
 * persona stats into the real modifiers the physics uses, the weighted
 * skill table, and the initial state of every mutable field. The persona
 * and character files arrive as parsed lines.
 */
module Player {
  import opened Wrappers
  import opened Arith

  /** The seven skills; a racer's `item` is the skill's number. */
  datatype Skill = Agi | Bufu | Garu | Zio | Hama | Mudo | Phys

  function SkillNumber(s: Skill): (n: int)
    ensures 1 <= n <= 7
  {
    match s
    case Agi => 1 case Bufu => 2 case Garu => 3 case Zio => 4
    case Hama => 5 case Mudo => 6 case Phys => 7
  }

  /** A persona line: a stat modifier for slot 0..4, a skill chance, or anything else. */
  datatype PersonaLine =
    | StatMod(slot: nat, value: int)
    | SkillChance(skill: Skill, chance: real)
    | PersonaOther

  /** A character line, one per stat, or anything else (the name). */
  datatype CharLine =
    | MaxSpeedStat(v: int)
    | AccelStat(v: int)
    | OffroadStat(v: int)
    | RecoveryStat(v: int)
    | ThresholdStat(v: int)
    | HealthStat(v: int)
    | CharOther

  /**
   * Loading fails when the offroad line comes before the accel line (its
   * formula reads `accel_mod`) and, in this model, when a stat never appears
   * (the source fails at its first later use).
   */
  datatype LoadError = OffroadBeforeAccel | MissingStat

  /** What `load_data` settles for the whole race. */
  datatype Stats = Stats(
    itemChoice: seq<int>,
    offroadLimitMod: real,
    maxSpeedMod: real, brakingMod: real, decelMod: real,
    accelMod: real, offroadDecelMod: real,
    recovery: real, threshold: real,
    rawHealth: int, maxHealth: real)

  // ---------------------------------------------------------------- formulas

  function MaxSpeedBase(v: int, engine: int, mod: int): real
  {
    0.8 + 0.012 * ((v - 1 - engine + mod) as real)
  }

  function AccelMod(v: int, engine: int, mod: int): real
  {
    (1.4 + 0.4 * ((v - 1 - engine + mod) as real)) * 1.02
  }

  function OffroadDecelMod(accelMod: real, v: int, engine: int, mod: int): real
  {
    (accelMod + 0.24 * ((7 - (v - engine + mod)) as real)) * 1.02
  }

  function Recovery(v: int, engine: int, mod: int): real
  {
    1.2 + 0.1 * ((v - 2 - engine + mod) as real)
  }

  function Threshold(v: int, engine: int, mod: int): real
  {
    1.5 * ((7 - (v - engine + mod)) as real)
  }

  /** A higher threshold stat always means a lower mini-turbo threshold, 1.5 per point. */
  lemma ThresholdFalls(v: int, w: int, engine: int, mod: int)
    requires v < w
    ensures Threshold(w, engine, mod) < Threshold(v, engine, mod)
    ensures Threshold(v, engine, mod) - Threshold(w, engine, mod) == 1.5 * ((w - v) as real)
  {
  }

  /**
   * With integer stats the top-speed modifier is never zero, so the
   * physics' divisions by `max_speed * max_speed_mod` are defined.
   */
  lemma MaxSpeedModNonZero(v: int, engine: int, mod: int)
    ensures MaxSpeedBase(v, engine, mod) * 1.02 != 0.0
  {
  }

  // ---------------------------------------------------------------- persona file

  /** `int(float(p) * 50)` copies, none when that is negative. */
  function Copies(chance: real): (n: nat)
    ensures chance >= 0.0 ==> (n as real) <= chance * 50.0 < (n as real) + 1.0
    ensures chance * 50.0 < 1.0 ==> n == 0
  {
    var t := Trunc(chance * 50.0);
    if t < 0 then 0 else t
  }

  function Repeat(x: int, n: nat): (r: seq<int>)
    ensures |r| == n && forall i :: 0 <= i < n ==> r[i] == x
  {
    if n == 0 then [] else Repeat(x, n - 1) + [x]
  }

  /** The modifier a persona sets for one slot: its last line for that slot, else 0. */
  function StatModOf(lines: seq<PersonaLine>, slot: nat): int
  {
    if |lines| == 0 then 0
    else
      var last := lines[|lines| - 1];
      if last.StatMod? && last.slot == slot then last.value
      else StatModOf(lines[..|lines| - 1], slot)
  }

  /** The skill table: every chance line appends its copies, in line order. */
  function ItemChoiceOf(lines: seq<PersonaLine>): seq<int>
  {
    if |lines| == 0 then []
    else
      var last := lines[|lines| - 1];
      ItemChoiceOf(lines[..|lines| - 1])
        + (if last.SkillChance? then Repeat(SkillNumber(last.skill), Copies(last.chance)) else [])
  }

  /** How many table entries a persona's lines give one skill. */
  function CopiesOf(lines: seq<PersonaLine>, s: Skill): nat
  {
    if |lines| == 0 then 0
    else
      var last := lines[|lines| - 1];
      CopiesOf(lines[..|lines| - 1], s)
        + (if last.SkillChance? && last.skill == s then Copies(last.chance) else 0)
  }

  /** Every skill-table entry is a skill number 1..7. */
  lemma {:induction false} ItemChoiceInRange(lines: seq<PersonaLine>)
    ensures forall i :: 0 <= i < |ItemChoiceOf(lines)| ==> 1 <= ItemChoiceOf(lines)[i] <= 7
  {
    if |lines| > 0 {
      ItemChoiceInRange(lines[..|lines| - 1]);
    }
  }

  /** Each skill appears in the table exactly as often as its chance lines ask. */
  lemma {:induction false} ItemChoiceCounts(lines: seq<PersonaLine>, s: Skill)
    ensures multiset(ItemChoiceOf(lines))[SkillNumber(s)] == CopiesOf(lines, s)
  {
    if |lines| > 0 {
      ItemChoiceCounts(lines[..|lines| - 1], s);
      var last := lines[|lines| - 1];
      if last.SkillChance? {
        RepeatCount(SkillNumber(last.skill), Copies(last.chance), SkillNumber(s));
        if last.skill != s {
          SkillNumberInjective(last.skill, s);
        }
      }
    }
  }

  lemma {:induction false} RepeatCount(x: int, n: nat, y: int)
    ensures multiset(Repeat(x, n))[y] == if x == y then n else 0
  {
    if n > 0 {
      RepeatCount(x, n - 1, y);
    }
  }

  lemma SkillNumberInjective(a: Skill, b: Skill)
    requires a != b
    ensures SkillNumber(a) != SkillNumber(b)
  {
  }

  // ---------------------------------------------------------------- character file

  /** The character stats read so far; None: not yet read. */
  datatype CharStats = CharStats(
    maxSpeedMod: Option<real>, brakingMod: Option<real>, decelMod: Option<real>,
    accelMod: Option<real>, offroadDecelMod: Option<real>,
    recovery: Option<real>, threshold: Option<real>, health: Option<int>)

  const NoCharStats: CharStats := CharStats(None, None, None, None, None, None, None, None)

  /** One character line applied to the stats read so far. */
  function CharStep(st: CharStats, line: CharLine, engine: int, mods: seq<int>): Result<CharStats, LoadError>
    requires |mods| == 5
  {
    match line
    case MaxSpeedStat(v) =>
      var base := MaxSpeedBase(v, engine, mods[0]);
      Ok(st.(maxSpeedMod := Some(base * 1.02), brakingMod := Some(base * 0.5 * 1.02),
             decelMod := Some(base * 0.5 * 1.02)))
    case AccelStat(v) => Ok(st.(accelMod := Some(AccelMod(v, engine, mods[1]))))
    case OffroadStat(v) =>
      if st.accelMod.None? then Err(OffroadBeforeAccel)
      else Ok(st.(offroadDecelMod := Some(OffroadDecelMod(st.accelMod.value, v, engine, mods[2]))))
    case RecoveryStat(v) => Ok(st.(recovery := Some(Recovery(v, engine, mods[3]))))
    case ThresholdStat(v) => Ok(st.(threshold := Some(Threshold(v, engine, mods[4]))))
    case HealthStat(v) => Ok(st.(health := Some(v - engine * 100)))
    case CharOther => Ok(st)
  }

  /** The character lines applied in order, stopping at the first failure. */
  function CharFold(lines: seq<CharLine>, engine: int, mods: seq<int>): Result<CharStats, LoadError>
    requires |mods| == 5
  {
    if |lines| == 0 then Ok(NoCharStats)
    else
      match CharFold(lines[..|lines| - 1], engine, mods)
      case Err(e) => Err(e)
      case Ok(st) => CharStep(st, lines[|lines| - 1], engine, mods)
  }

  predicate Complete(st: CharStats)
  {
    st.maxSpeedMod.Some? && st.brakingMod.Some? && st.decelMod.Some? && st.accelMod.Some?
    && st.offroadDecelMod.Some? && st.recovery.Some? && st.threshold.Some? && st.health.Some?
  }

  /** What loading both files yields. */
  function StatsOf(persona: seq<PersonaLine>, character: seq<CharLine>, engine: int): Result<Stats, LoadError>
  {
    var mods := seq(5, slot requires 0 <= slot < 5 => StatModOf(persona, slot));
    match CharFold(character, engine, mods)
    case Err(e) => Err(e)
    case Ok(st) =>
      if !Complete(st) then Err(MissingStat)
      else Ok(Stats(ItemChoiceOf(persona), 0.75,
                    st.maxSpeedMod.value, st.brakingMod.value, st.decelMod.value,
                    st.accelMod.value, st.offroadDecelMod.value,
                    st.recovery.value, st.threshold.value,
                    st.health.value, st.health.value as real))
  }

  /** Braking and natural deceleration are each half the top-speed modifier. */
  lemma {:induction false} BrakingIsHalfTopSpeed(lines: seq<CharLine>, engine: int, mods: seq<int>)
    requires |mods| == 5
    requires CharFold(lines, engine, mods).Ok?
    ensures var st := CharFold(lines, engine, mods).value;
      st.maxSpeedMod.Some? ==>
        && st.brakingMod.Some? && st.decelMod.Some?
        && st.brakingMod.value == st.decelMod.value == st.maxSpeedMod.value / 2.0
  {
    if |lines| > 0 {
      BrakingIsHalfTopSpeed(lines[..|lines| - 1], engine, mods);
    }
  }

  /** Every modifier the character file sets comes from integer stats, so the top-speed one is non-zero. */
  lemma {:induction false} LoadedTopSpeedNonZero(lines: seq<CharLine>, engine: int, mods: seq<int>)
    requires |mods| == 5
    requires CharFold(lines, engine, mods).Ok?
    ensures var st := CharFold(lines, engine, mods).value;
      st.maxSpeedMod.Some? ==> st.maxSpeedMod.value != 0.0
  {
    if |lines| > 0 {
      LoadedTopSpeedNonZero(lines[..|lines| - 1], engine, mods);
      var last := lines[|lines| - 1];
      if last.MaxSpeedStat? {
        MaxSpeedModNonZero(last.v, engine, mods[0]);
      }
    }
  }

  /** Once a prefix of the character lines fails, the whole file fails the same way. */
  lemma {:induction false} CharFoldFailureSticks(lines: seq<CharLine>, engine: int, mods: seq<int>, i: nat)
    requires |mods| == 5 && i <= |lines|
    requires CharFold(lines[..i], engine, mods).Err?
    ensures CharFold(lines, engine, mods) == CharFold(lines[..i], engine, mods)
  {
    if i < |lines| {
      assert lines[..|lines| - 1][..i] == lines[..i];
      CharFoldFailureSticks(lines[..|lines| - 1], engine, mods, i);
    } else {
      assert lines[..i] == lines;
    }
  }

  /**
   * An offroad line with no accel line anywhere before it fails the load,
   * whatever else precedes it and whatever follows.
   */
  lemma OffroadFirstFails(lines: seq<CharLine>, j: nat, engine: int, mods: seq<int>)
    requires |mods| == 5 && j < |lines| && lines[j].OffroadStat?
    requires forall i :: 0 <= i < j ==> !lines[i].AccelStat?
    ensures CharFold(lines, engine, mods) == Err(OffroadBeforeAccel)
  {
    NoAccelYet(lines[..j], engine, mods);
    assert lines[..j + 1][..j] == lines[..j];
    CharFoldFailureSticks(lines, engine, mods, j + 1);
  }

  /** Without an accel line the acceleration slot stays empty, unless an offroad line has failed. */
  lemma {:induction false} NoAccelYet(lines: seq<CharLine>, engine: int, mods: seq<int>)
    requires |mods| == 5 && forall i :: 0 <= i < |lines| ==> !lines[i].AccelStat?
    ensures var r := CharFold(lines, engine, mods);
      r == Err(OffroadBeforeAccel) || (r.Ok? && r.value.accelMod.None?)
  {
    if |lines| > 0 {
      NoAccelYet(lines[..|lines| - 1], engine, mods);
    }
  }

  /**
   * `load_data`: the persona loop fills the modifier slots and appends
   * skill copies one by one; the character loop converts each stat.
   */
  method LoadData(persona: seq<PersonaLine>, character: seq<CharLine>, engine: int)
    returns (r: Result<Stats, LoadError>)
    ensures r == StatsOf(persona, character, engine)
  {
    var itemChoice: seq<int> := [];
    var statMod := new int[5](_ => 0);
    var i := 0;
    while i < |persona|
      invariant 0 <= i <= |persona|
      invariant itemChoice == ItemChoiceOf(persona[..i])
      invariant forall slot :: 0 <= slot < 5 ==> statMod[slot] == StatModOf(persona[..i], slot)
    {
      assert persona[..i + 1][..i] == persona[..i];
      match persona[i] {
        case StatMod(slot, value) =>
          if slot < 5 {
            statMod[slot] := value;
          }
        case SkillChance(skill, chance) =>
          var n := Copies(chance);
          var j := 0;
          while j < n
            invariant 0 <= j <= n
            invariant itemChoice == ItemChoiceOf(persona[..i]) + Repeat(SkillNumber(skill), j)
          {
            itemChoice := itemChoice + [SkillNumber(skill)];
            j := j + 1;
          }
        case PersonaOther =>
      }
      i := i + 1;
    }
    assert persona[..|persona|] == persona;
    var mods := statMod[..];
    assert mods == seq(5, slot requires 0 <= slot < 5 => StatModOf(persona, slot));

    var st := NoCharStats;
    i := 0;
    while i < |character|
      invariant 0 <= i <= |character|
      invariant CharFold(character[..i], engine, mods) == Ok(st)
    {
      assert character[..i + 1][..i] == character[..i];
      match character[i] {
        case MaxSpeedStat(v) =>
          var maxSpeed := MaxSpeedBase(v, engine, mods[0]);
          st := st.(maxSpeedMod := Some(maxSpeed * 1.02), brakingMod := Some(maxSpeed * 0.5 * 1.02),
                    decelMod := Some(maxSpeed * 0.5 * 1.02));
        case AccelStat(v) =>
          st := st.(accelMod := Some(AccelMod(v, engine, mods[1])));
        case OffroadStat(v) =>
          if st.accelMod.None? {
            CharFoldFailureSticks(character, engine, mods, i + 1);
            return Err(OffroadBeforeAccel);
          }
          st := st.(offroadDecelMod := Some(OffroadDecelMod(st.accelMod.value, v, engine, mods[2])));
        case RecoveryStat(v) =>
          st := st.(recovery := Some(Recovery(v, engine, mods[3])));
        case ThresholdStat(v) =>
          st := st.(threshold := Some(Threshold(v, engine, mods[4])));
        case HealthStat(v) =>
          st := st.(health := Some(v - engine * 100));
        case CharOther =>
      }
      i := i + 1;
    }
    assert character[..|character|] == character;
    if !Complete(st) {
      return Err(MissingStat);
    }
    r := Ok(Stats(itemChoice, 0.75, st.maxSpeedMod.value, st.brakingMod.value, st.decelMod.value,
                  st.accelMod.value, st.offroadDecelMod.value, st.recovery.value,
                  st.threshold.value, st.health.value, st.health.value as real));
  }

  // ---------------------------------------------------------------- racer state

  /** The steering and throttle flags (left, right, accelerate). */
  datatype Inputs = Inputs(left: bool, right: bool, accel: bool)

  const NoInputs: Inputs := Inputs(false, false, false)

  /** Where a racer is and how it moves; `laps` counts the lap being driven. */
  datatype Motion = Motion(
    position: real, playerX: real, lane: real, playerY: real, speed: real,
    accumulator: real, flying: bool, laps: int, inputs: Inputs)

  /** Health, the displayed health that drains towards it, and whether it is regenerating. */
  datatype Vitals = Vitals(health: int, displayHealth: int, recover: bool)

  /** The timed status effects and the mini-turbo bank. */
  datatype Status = Status(
    noControl: real, frozen: real, lightning: real, speedUp: real, attack: real,
    hasBoosted: nat, boost: real, boostDiff: real)

  /** The Hama and Mudo masks: suffered (`mudo`, `hama`) and cast (`mudoCast`, `hamaCast`). */
  datatype Masks = Masks(
    mudo: bool, mudoAlpha: real, mudoCast: bool, mudoCastAlpha: real,
    hama: bool, hamaAlpha: real, hamaCast: bool, hamaCastAlpha: real)

  /** The skill held, the item roulette and the place in the race. */
  datatype Held = Held(item: Option<int>, itemScrolling: real, place: int)

  /** Every field of a racer that the race reads or updates, grouped by concern. */
  datatype Car = Car(stats: Stats, motion: Motion, vitals: Vitals, status: Status, masks: Masks, held: Held)

  /**
   * How far around the race a racer has come: its position plus the laps
   * before the one it is driving (`laps` starts at 1 once the race begins).
   */
  function Progress(c: Car, trackLength: real): real
  {
    c.motion.position + ((c.motion.laps - 1) as real) * trackLength
  }

  /** The state `Player.__init__` leaves a racer in once its stats are loaded. */
  function InitialCar(stats: Stats, isTitle: bool, playerX: real, position: real): (c: Car)
    ensures c.stats == stats
    ensures !isTitle ==> c.motion.playerX == playerX && c.motion.lane == playerX && c.motion.position == position
    ensures isTitle ==> c.motion.playerX == 0.0 && c.motion.lane == 0.0 && c.motion.position == 10000.0
    ensures c.vitals.health == c.vitals.displayHealth == stats.rawHealth && !c.vitals.recover
    ensures c.motion.speed == 0.0 && c.motion.playerY == 0.0 && c.motion.accumulator == 0.0
    ensures !c.motion.flying && c.motion.laps == 0 && c.motion.inputs == NoInputs
    ensures c.held.item.None? && c.held.itemScrolling == 0.0 && c.held.place == 0
    ensures c.status.hasBoosted == 0 && c.status.boost == 0.0 && c.status.boostDiff == 0.0
    ensures c.status.noControl == 0.0 && c.status.speedUp == 0.0 && c.status.frozen == 0.0
    ensures c.status.lightning == 0.0 && c.status.attack == 0.0
    ensures !c.masks.mudo && !c.masks.hama && !c.masks.mudoCast && !c.masks.hamaCast
    ensures c.masks.mudoAlpha == 0.0 && c.masks.hamaAlpha == 0.0
    ensures c.masks.mudoCastAlpha == 0.0 && c.masks.hamaCastAlpha == 0.0
  {
    Car(stats,
        Motion(if isTitle then 10000.0 else position, if isTitle then 0.0 else playerX,
               if isTitle then 0.0 else playerX, 0.0, 0.0, 0.0, false, 0, NoInputs),
        Vitals(stats.rawHealth, stats.rawHealth, false),
        Status(0.0, 0.0, 0.0, 0.0, 0.0, 0, 0.0, 0.0),
        Masks(false, 0.0, false, 0.0, false, 0.0, false, 0.0),
        Held(None, 0.0, 0))
  }

  /** `Player(...)`: load the stats, then set the initial state. */
  method NewPlayer(persona: seq<PersonaLine>, character: seq<CharLine>, engine: int,
                   isTitle: bool, playerX: real, position: real)
    returns (r: Result<Car, LoadError>)
    ensures r.Err? <==> StatsOf(persona, character, engine).Err?
    ensures r.Ok? ==> r.value == InitialCar(StatsOf(persona, character, engine).value, isTitle, playerX, position)
    ensures r.Ok? ==> r.value.stats.maxSpeedMod != 0.0
    ensures r.Ok? ==> forall i :: 0 <= i < |r.value.stats.itemChoice| ==> 1 <= r.value.stats.itemChoice[i] <= 7
  {
    var stats := LoadData(persona, character, engine);
    if stats.Err? {
      return Err(stats.error);
    }
    var mods := seq(5, slot requires 0 <= slot < 5 => StatModOf(persona, slot));
    LoadedTopSpeedNonZero(character, engine, mods);
    ItemChoiceInRange(persona);
    r := Ok(InitialCar(stats.value, isTitle, playerX, position));
  }
}
