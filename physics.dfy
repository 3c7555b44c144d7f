/**
 * One racer's share of `update` (main.py:1684-1861), written as functions
 * from the racer's state before a phase to its state after it. `k` is the
 * frame factor `max(1, 1 + (60 - fps)/60)` and `dt` the fixed step 1/60;
 * the random draws of the source arrive as parameters.
 */
module Physics {
  import opened Arith
  import opened Wrappers
  import opened Player
  import opened Track

  // ---------------------------------------------------------------- mini-turbo

  /**
   * The mini-turbo: once the banked `boostDiff` exceeds the racer's threshold
   * a roll of `randint(0, hasBoosted + 1)` decides between a burst of speed
   * and a spin-out; either way the bank is spent.
   */
  function MiniTurbo(c: Car, roll: int): (r: Car)
    requires 0 <= roll <= c.status.hasBoosted + 1
    ensures r.stats == c.stats && r.vitals == c.vitals && r.masks == c.masks && r.held == c.held
    ensures r.motion == c.motion.(speed := r.motion.speed)
    ensures c.status.boostDiff <= c.stats.threshold ==> r == c
    ensures c.status.boostDiff > c.stats.threshold ==> r.status.boostDiff == 0.0
    ensures Boosts(c, roll) ==>
      && r.motion.speed == MaxSpeed * 1.2
      && r.status == c.status.(hasBoosted := c.status.hasBoosted + 1, speedUp := 0.6,
                               boost := -c.status.boostDiff, boostDiff := 0.0)
    ensures c.status.boostDiff > c.stats.threshold && roll > 50 ==>
      && r.motion == c.motion
      && r.status == c.status.(noControl := c.status.noControl + c.status.boostDiff / 10.0,
                               boost := -2.0 * c.status.boostDiff, boostDiff := 0.0)
  {
    var st := c.status;
    if st.boostDiff > c.stats.threshold then
      if roll <= 50 then
        c.(motion := c.motion.(speed := MaxSpeed * 1.2),
           status := st.(hasBoosted := st.hasBoosted + 1, speedUp := 0.6, boost := -st.boostDiff, boostDiff := 0.0))
      else
        c.(status := st.(noControl := st.noControl + st.boostDiff / 10.0, boost := -2.0 * st.boostDiff, boostDiff := 0.0))
    else c
  }

  /** The mini-turbo fires and the roll comes up 50 or less: a burst rather than a spin-out. */
  predicate Boosts(c: Car, roll: int)
  {
    c.status.boostDiff > c.stats.threshold && roll <= 50
  }

  /** After fifty mini-turbos the top roll of the widened range spins the racer out. */
  lemma MiniTurboCanFail(c: Car)
    requires c.status.boostDiff > c.stats.threshold && c.status.hasBoosted >= 50 && c.status.boostDiff > 0.0
    ensures MiniTurbo(c, c.status.hasBoosted + 1).status.speedUp == c.status.speedUp
    ensures MiniTurbo(c, c.status.hasBoosted + 1).status.noControl > c.status.noControl
  {
  }

  // ---------------------------------------------------------------- airborne

  /** The bounce of a launched racer: rise by 6, pulled down by gravity times the time aloft. */
  function Airborne(m: Motion, k: real): (r: Motion)
    ensures !m.flying ==> r == m
    ensures m.flying ==> r.playerY >= 0.0
    ensures r == m.(playerY := r.playerY, accumulator := r.accumulator, flying := r.flying)
    ensures m.flying && !r.flying ==> r.playerY == 0.0 && r.accumulator == 0.0
  {
    if m.flying then
      var y := m.playerY + 6.0 + Gravity * m.accumulator * k;
      if y <= 0.0 then m.(playerY := 0.0, accumulator := 0.0, flying := false)
      else m.(playerY := y, accumulator := m.accumulator + 1.0 * k)
    else m
  }

  function AirborneTicks(m: Motion, k: real, n: nat): Motion
  {
    if n == 0 then m else Airborne(AirborneTicks(m, k, n - 1), k)
  }

  /** At 60 frames per second a hop from the ground stays aloft four ticks and lands on the fifth. */
  lemma HopLastsFiveTicks(m: Motion)
    requires m.flying && m.playerY == 0.0 && m.accumulator == 0.0
    ensures forall n :: 1 <= n <= 4 ==> AirborneTicks(m, 1.0, n).flying
    ensures !AirborneTicks(m, 1.0, 5).flying && AirborneTicks(m, 1.0, 5).playerY == 0.0
  {
    assert AirborneTicks(m, 1.0, 0) == m;
    var m1 := AirborneTicks(m, 1.0, 1);
    assert m1.playerY == 6.0 && m1.accumulator == 1.0 && m1.flying;
    var m2 := AirborneTicks(m, 1.0, 2);
    assert m2.playerY == 9.0 && m2.accumulator == 2.0 && m2.flying;
    var m3 := AirborneTicks(m, 1.0, 3);
    assert m3.playerY == 9.0 && m3.accumulator == 3.0 && m3.flying;
    var m4 := AirborneTicks(m, 1.0, 4);
    assert m4.playerY == 6.0 && m4.accumulator == 4.0 && m4.flying;
  }

  // ---------------------------------------------------------------- physical attack

  /** The attack window shrinks by 8 a tick and stops at 0. */
  function AttackTick(a: real): (r: real)
    ensures a > 0.0 ==> 0.0 <= r < a
    ensures a <= 0.0 ==> r == a
  {
    if a > 0.0 then Max(0.0, a - 8.0) else a
  }

  function AttackTicks(a: real, n: nat): real
  {
    if n == 0 then a else AttackTick(AttackTicks(a, n - 1))
  }

  lemma {:induction false} AttackRamp(n: nat)
    requires n <= 11
    ensures AttackTicks(90.0, n) == 90.0 - 8.0 * (n as real)
  {
    if n > 0 {
      AttackRamp(n - 1);
    }
  }

  /** A physical attack of 90 strikes on twelve consecutive ticks and then is spent. */
  lemma {:induction false} AttackWindow(n: nat)
    ensures n < 12 ==> AttackTicks(90.0, n) > 0.0
    ensures n >= 12 ==> AttackTicks(90.0, n) == 0.0
  {
    if n < 12 {
      AttackRamp(n);
    } else if n == 12 {
      AttackRamp(11);
    } else {
      AttackWindow(n - 1);
    }
  }

  /** Another racer within three segments along the track and 0.75 across, and not recovering. */
  predicate Strikes(attacker: Car, victim: Car)
  {
    && Abs(attacker.motion.position - victim.motion.position) < L * 3.0
    && Abs(attacker.motion.playerX - victim.motion.playerX) <= 0.75
    && !victim.vitals.recover
  }

  function Abs(r: real): real { if r < 0.0 then -r else r }

  /** What one strike does to its victim: a short spin, a hop and at least 10 damage. */
  function Struck(v: Car, k: real): (r: Car)
    requires k >= 1.0
    ensures r.vitals.health <= v.vitals.health - 10
    ensures r.status.noControl > v.status.noControl && r.motion.flying
    ensures r.motion == v.motion.(flying := true) && r.stats == v.stats && r.held == v.held
    ensures r.vitals.recover == v.vitals.recover && r.masks == v.masks
    ensures r.status == v.status.(noControl := r.status.noControl)
  {
    v.(status := v.status.(noControl := v.status.noControl + 0.2),
       motion := v.motion.(flying := true),
       vitals := v.vitals.(health := v.vitals.health - Trunc(10.0 * k)))
  }

  // ---------------------------------------------------------------- before the attack loop

  /**
   * The racer's own step up to its attack: a finished racer drops its item,
   * the mini-turbo, the bounce, the spin-out recovery and the attack timer.
   */
  function Prelude(c: Car, roll: int, dt: real, k: real): (r: Car)
    requires 0 <= roll <= c.status.hasBoosted + 1
    ensures r.stats == c.stats && r.vitals == c.vitals && r.masks == c.masks
    ensures r.motion.position == c.motion.position && r.motion.laps == c.motion.laps
    ensures r.motion.playerX == c.motion.playerX && r.motion.inputs == c.motion.inputs
    ensures c.motion.speed >= 0.0 ==> r.motion.speed >= 0.0
    ensures r.held.place == c.held.place
    ensures c.motion.laps == MaxLaps ==> r.held.item.None? && r.held.itemScrolling == 0.0
    ensures c.motion.laps != MaxLaps ==> r.held == c.held
    ensures r.status.attack == AttackTick(c.status.attack)
    ensures r.status.speedUp == SpeedUpAfterTurbo(c, roll)
  {
    var c0 := if c.motion.laps == MaxLaps then c.(held := c.held.(item := None, itemScrolling := 0.0)) else c;
    var c1 := MiniTurbo(c0, roll);
    var st := c1.status;
    c1.(motion := Airborne(c1.motion, k),
        status := st.(noControl := if st.noControl > 0.0 then st.noControl - dt * c1.stats.recovery * k else st.noControl,
                      attack := AttackTick(st.attack)))
  }

  // ---------------------------------------------------------------- health

  /**
   * Health after the racer's own clamp: a racer whose displayed health is
   * gone is knocked out and starts recovering; recovery regains 3·k a tick
   * up to full health, otherwise the displayed health drains 5·k a tick
   * towards the real one.
   */
  function HealthStep(v: Vitals, maxHealth: real, k: real): (r: Vitals)
    requires k >= 1.0
    ensures maxHealth >= 0.0 ==> r.health >= 0
    ensures r.health > Max0(v.health) ==> r.health <= Trunc(maxHealth)
    ensures v.displayHealth <= 0 && Max0(v.health) >= Trunc(maxHealth) ==> r.recover
    ensures r.recover && !v.recover ==> v.displayHealth <= 0
    ensures v.recover && !r.recover ==> r.health == Trunc(maxHealth)
    ensures v.displayHealth <= 0 ==> r.displayHealth == Trunc(maxHealth)
    ensures v.displayHealth <= 0 && Max0(v.health) < Trunc(maxHealth) ==>
      var h := Trunc(Max0(v.health) as real + 3.0 * k);
      && (h < Trunc(maxHealth) ==> r.recover && r.health == h)
      && (h >= Trunc(maxHealth) ==> !r.recover && r.health == Trunc(maxHealth))
    ensures v.displayHealth > 0 && !v.recover && Max0(v.health) < v.displayHealth ==>
      !r.recover && r.health == Max0(v.health) && r.displayHealth == v.displayHealth - Trunc(5.0 * k)
  {
    var v1 := v.(health := Max0(v.health));
    var v2 := if v1.displayHealth <= 0 then v1.(displayHealth := Trunc(maxHealth), recover := true) else v1;
    if v2.health < v2.displayHealth then
      if v2.recover then
        var h := Trunc(v2.health as real + 3.0 * k);
        if h >= Trunc(maxHealth) then v2.(health := Trunc(maxHealth), recover := false)
        else v2.(health := h)
      else v2.(displayHealth := v2.displayHealth - Trunc(5.0 * k))
    else v2
  }

  function Max0(h: int): int { if h < 0 then 0 else h }

  /** A racer whose displayed health is gone is knocked out: it spins for 1.5 more and hops. */
  function Vitality(c: Car, k: real): (r: Car)
    requires k >= 1.0
    ensures r.stats == c.stats && r.held == c.held && r.masks == c.masks
    ensures r.motion == c.motion.(flying := r.motion.flying)
    ensures r.vitals == HealthStep(c.vitals, c.stats.maxHealth, k)
    ensures c.vitals.displayHealth <= 0 ==> r.motion.flying && r.status == c.status.(noControl := c.status.noControl + 1.5)
    ensures c.vitals.displayHealth > 0 ==> r.motion == c.motion && r.status == c.status
  {
    var knocked := c.vitals.displayHealth <= 0;
    c.(vitals := HealthStep(c.vitals, c.stats.maxHealth, k),
       motion := if knocked then c.motion.(flying := true) else c.motion,
       status := if knocked then c.status.(noControl := c.status.noControl + 1.5) else c.status)
  }

  // ---------------------------------------------------------------- timers

  /**
   * The mask of Hama or Mudo: while on it brightens by 5·k a tick and
   * switches off once it reaches 512; once off it fades by 5·k a tick.
   */
  function AlphaStep(on: bool, alpha: real, k: real): (r: (bool, real))
  {
    if on then (alpha + 5.0 * k < 512.0, alpha + 5.0 * k)
    else if alpha > 0.0 then (false, alpha - 5.0 * k)
    else (false, alpha)
  }

  function AlphaTicks(on: bool, alpha: real, k: real, n: nat): (bool, real)
  {
    if n == 0 then (on, alpha) else var p := AlphaTicks(on, alpha, k, n - 1); AlphaStep(p.0, p.1, k)
  }

  lemma {:induction false} AlphaRamp(n: nat)
    requires n <= 102
    ensures AlphaTicks(true, 0.0, 1.0, n) == (true, 5.0 * (n as real))
  {
    if n > 0 {
      AlphaRamp(n - 1);
    }
  }

  /**
   * An example at 60 frames per second: a Hama or Mudo mask switches on for
   * 102 ticks, then fades; the racer's steering stays reversed until it has
   * faded out.
   */
  lemma AlphaWindow()
    ensures AlphaTicks(true, 0.0, 1.0, 102) == (true, 510.0)
    ensures AlphaTicks(true, 0.0, 1.0, 103) == (false, 515.0)
    ensures AlphaTicks(true, 0.0, 1.0, 104) == (false, 510.0)
  {
    AlphaRamp(102);
  }

  /** At any frame rate, a mask that is still on has brightened by exactly 5·k a tick. */
  lemma {:induction false} AlphaOnRamp(k: real, n: nat)
    requires k >= 1.0
    ensures AlphaTicks(true, 0.0, k, n).0 ==> AlphaTicks(true, 0.0, k, n).1 == 5.0 * k * (n as real)
  {
    if n > 0 {
      AlphaOnRamp(k, n - 1);
    }
  }

  /** At any frame rate a mask switched on from 0 is off again by its 103rd tick. */
  lemma AlphaOffBy(k: real, n: nat)
    requires k >= 1.0 && n >= 103
    ensures !AlphaTicks(true, 0.0, k, n).0
  {
    var p := AlphaTicks(true, 0.0, k, n - 1);
    if p.0 {
      AlphaOnRamp(k, n - 1);
      MulMono(1.0, k, 5.0 * (n as real), 5.0 * (n as real));
      assert p.1 + 5.0 * k == 5.0 * k * (n as real);
    }
  }

  /**
   * The fade of the caster's own Hama and Mudo masks (the third loop of
   * `render`, main.py:1404-1424, for racer 0): the same ramp as a suffered
   * mask. While a cast is on, its alpha is positive after the step, which is
   * what spares the caster from Hama and Mudo; once off, it fades by 5·k.
   */
  function CastFade(m: Masks, k: real): (r: Masks)
    requires k >= 1.0
    ensures r == m.(mudoCast := r.mudoCast, mudoCastAlpha := r.mudoCastAlpha,
                    hamaCast := r.hamaCast, hamaCastAlpha := r.hamaCastAlpha)
    ensures m.mudoCast && m.mudoCastAlpha >= 0.0 ==> r.mudoCastAlpha > 0.0
    ensures m.hamaCast && m.hamaCastAlpha >= 0.0 ==> r.hamaCastAlpha > 0.0
    ensures r.mudoCast ==> m.mudoCast
    ensures r.hamaCast ==> m.hamaCast
    ensures m.mudoCast ==> (r.mudoCast <==> m.mudoCastAlpha + 5.0 * k < 512.0)
    ensures m.hamaCast ==> (r.hamaCast <==> m.hamaCastAlpha + 5.0 * k < 512.0)
    ensures !m.mudoCast && m.mudoCastAlpha > 0.0 ==> r.mudoCastAlpha == m.mudoCastAlpha - 5.0 * k
    ensures !m.hamaCast && m.hamaCastAlpha > 0.0 ==> r.hamaCastAlpha == m.hamaCastAlpha - 5.0 * k
    ensures !m.mudoCast && m.mudoCastAlpha <= 0.0 ==> r.mudoCastAlpha == m.mudoCastAlpha
    ensures !m.hamaCast && m.hamaCastAlpha <= 0.0 ==> r.hamaCastAlpha == m.hamaCastAlpha
  {
    var mc := AlphaStep(m.mudoCast, m.mudoCastAlpha, k);
    var hc := AlphaStep(m.hamaCast, m.hamaCastAlpha, k);
    m.(mudoCast := mc.0, mudoCastAlpha := mc.1, hamaCast := hc.0, hamaCastAlpha := hc.1)
  }

  /**
   * The timers after the health phase: freeze thaw, the two masks, the item
   * roulette (which shows `itemChoice[pick]` while it runs) and the sideways
   * push of a Zio hit, which decays towards 0 from either side.
   */
  function Timers(c: Car, pick: nat, dt: real, k: real): (r: Car)
    requires c.held.itemScrolling > 0.0 ==> pick < |c.stats.itemChoice|
    ensures r.stats == c.stats && r.motion == c.motion && r.vitals == c.vitals
    ensures r.status == c.status.(frozen := r.status.frozen, lightning := r.status.lightning)
    ensures r.held.place == c.held.place
    ensures c.held.itemScrolling > 0.0 ==> r.held.item == Some(c.stats.itemChoice[pick])
    ensures c.held.itemScrolling <= 0.0 ==> r.held == c.held
    ensures c.status.lightning > 0.0 && dt * c.stats.recovery * k >= 0.0 ==> r.status.lightning <= c.status.lightning
    ensures c.status.lightning < 0.0 && dt * c.stats.recovery * k >= 0.0 ==> r.status.lightning >= c.status.lightning
    ensures c.status.lightning == 0.0 ==> r.status.lightning == 0.0
  {
    var rate := dt * c.stats.recovery * k;
    var st := c.status;
    var m := AlphaStep(c.masks.mudo, c.masks.mudoAlpha, k);
    var h := AlphaStep(c.masks.hama, c.masks.hamaAlpha, k);
    c.(status := st.(frozen := if st.frozen > 0.0 then st.frozen - rate else st.frozen,
                     lightning := if st.lightning > 0.0 then st.lightning - rate
                                  else if st.lightning < 0.0 then st.lightning + rate
                                  else st.lightning),
       masks := c.masks.(mudo := m.0, mudoAlpha := m.1, hama := h.0, hamaAlpha := h.1),
       held := if c.held.itemScrolling > 0.0 then
                 c.held.(itemScrolling := c.held.itemScrolling - dt * k, item := Some(c.stats.itemChoice[pick]))
               else c.held)
  }

  // ---------------------------------------------------------------- motion

  /** `temp_factor_4`: a bonus for taking a curve on its inside, never below 1. */
  function CurveFactor(curve: real, x: real): (f: real)
    ensures f >= 1.0
    ensures curve == 0.0 ==> f == 1.0
    ensures curve < 0.0 ==> (f > 1.0 <==> x < 0.0)
    ensures curve > 0.0 ==> (f > 1.0 <==> x > 0.0)
  {
    if curve < 0.0 then Max((CurveHard - x * 2.0) / CurveHard, 1.0)
    else if curve > 0.0 then Max((CurveHard + x * 2.0) / CurveHard, 1.0)
    else 1.0
  }

  /**
   * `temp_factor_1`: the catch-up factor from the leader's progress
   * `firstPos` (0 when no other racer holds first place); never below 1,
   * and above 1 exactly when the racer is behind that progress.
   */
  function CatchUp(firstPos: real, progress: real): (f: real)
    requires firstPos != -1.0
    ensures f >= 1.0
    ensures firstPos > -1.0 ==> (f > 1.0 <==> progress < firstPos)
  {
    var scale := (firstPos - progress) / (firstPos + 1.0) + 1.0;
    if firstPos > -1.0 then QuotientSign(firstPos - progress, firstPos + 1.0); Max(1.0, scale)
    else Max(1.0, scale)
  }

  lemma QuotientSign(a: real, b: real)
    requires b > 0.0
    ensures a / b > 0.0 <==> a > 0.0
  {
    var q := a / b;
    assert q * b == a;
  }

  /** `dx`: the sideways step, bigger off the road (|x| > 1) and slowed by the two factors. */
  function SideStep(c: Car, dt: real, tf4: real, tf1: real): real
    requires c.stats.maxSpeedMod != 0.0 && tf4 >= 1.0 && tf1 >= 1.0
  {
    dt * c.motion.speed / (MaxSpeed * c.stats.maxSpeedMod * tf4 * tf1)
      * (if c.motion.playerX < -1.0 || c.motion.playerX > 1.0 then 3.0 else 1.7)
  }

  /** The lateral position before its clamp: steering, the Zio push and the pull of the curve. */
  function Lateral(c: Car, dt: real, k: real, tf4: real, tf1: real, curve: real): real
    requires c.stats.maxSpeedMod != 0.0 && tf4 >= 1.0 && tf1 >= 1.0
  {
    var m := c.motion;
    var dx := SideStep(c, dt, tf4, tf1);
    var x1 := if m.inputs.left then m.playerX - dx * k
              else if m.inputs.right then m.playerX + dx * k
              else m.playerX;
    var x2 := if c.status.lightning < -0.1 then x1 - dx * 2.5 * k
              else if c.status.lightning > 0.1 then x1 + dx * 2.5 * k
              else x1;
    if m.speed > 0.0 then
      Accelerate(x2, AccelRate * c.stats.accelMod * curve / CurveHard * -1.0 * m.speed
                       / (MaxSpeed * c.stats.maxSpeedMod) * 0.0005, dt * k)
    else x2
  }

  /**
   * The speed before its clamp: braking once finished or frozen, coasting
   * while spun out, throttle or natural deceleration, then the off-road drag
   * above the off-road limit (judged on the unclamped lateral position x).
   */
  function SpeedChain(c: Car, x: real, dt: real, k: real, tf1: real): real
  {
    var s := c.stats;
    var st := c.status;
    var v := c.motion.speed;
    var s1 := if c.motion.laps == MaxLaps then Accelerate(v, BrakingRate * s.brakingMod * 2.5, dt * k)
              else if st.frozen > 0.0 then Accelerate(v, BrakingRate * s.brakingMod * 1.0, dt * k)
              else if st.noControl > 0.0 then Accelerate(v, DecelRate * s.decelMod * 0.4, dt * k)
              else v;
    var s2 := if c.motion.inputs.accel then
                if st.noControl <= 0.0 && st.frozen <= 0.0 then Accelerate(s1, AccelRate * s.accelMod * tf1, dt * k)
                else s1
              else Accelerate(s1, DecelRate * s.decelMod, dt * k);
    if (x < -1.0 || x > 1.0) && s2 > OffroadLimit * s.offroadLimitMod then
      Accelerate(s2, OffroadDecelRate * s.offroadDecelMod, dt * k)
    else s2
  }

  /**
   * The final speed: clamped into [0, top speed · factor] and then scaled by
   * the random 99..101 per cent; so it lies within 1% of the clamped speed.
   */
  function FinalSpeed(s: real, maxSpeedMod: real, tf2: real, jitter: int): (r: real)
    requires 99 <= jitter <= 101
    ensures 0.0 <= r <= 1.01 * Max(0.0, MaxSpeed * maxSpeedMod * tf2)
    ensures 0.0 <= s <= MaxSpeed * maxSpeedMod * tf2 ==> 0.99 * s <= r <= 1.01 * s
  {
    var top := MaxSpeed * maxSpeedMod * tf2;
    var l := Limit(s, 0.0, top);
    JitterBounds(l, Max(0.0, top), jitter);
    l * (jitter as real) / 100.0
  }

  lemma JitterBounds(l: real, top: real, jitter: int)
    requires 0.0 <= l <= top && 99 <= jitter <= 101
    ensures 0.0 <= l * (jitter as real) / 100.0 <= 1.01 * top
    ensures 0.99 * l <= l * (jitter as real) / 100.0 <= 1.01 * l
  {
    MulMono(l, top, jitter as real, 101.0);
    MulMono(l, l, 99.0, jitter as real);
    MulMono(l, l, jitter as real, 101.0);
  }

  /** `temp_factor_4` at the racer's segment before it moves. */
  function Tf4(c: Car, segs: seq<Segment>): (f: real)
    requires |segs| > 0
    ensures f >= 1.0
  {
    CurveFactor(segs[SegIdx(c.motion.position, |segs|)].curve, c.motion.playerX)
  }

  /** The new position: advanced by dt·speed·tf4·tf1·k and kept inside [0, 2·track length]. */
  function Advance(c: Car, segs: seq<Segment>, firstPos: real, dt: real, k: real, trackLength: real): (p: real)
    requires |segs| > 0 && firstPos != -1.0
    ensures trackLength >= 0.0 ==> 0.0 <= p <= 2.0 * trackLength
    ensures 0.0 <= c.motion.position <= 2.0 * trackLength && c.motion.speed >= 0.0 && dt >= 0.0 && k >= 1.0 ==>
      c.motion.position <= p
  {
    var tf4 := Tf4(c, segs);
    var tf1 := CatchUp(firstPos, Progress(c, trackLength));
    var step := dt * c.motion.speed * tf4 * tf1 * k;
    if c.motion.speed >= 0.0 && dt >= 0.0 && k >= 1.0 then
      StepNonNegative(dt, c.motion.speed, tf4, tf1, k); Increase(c.motion.position, step, trackLength * 2.0)
    else Increase(c.motion.position, step, trackLength * 2.0)
  }

  /** The unclamped lateral position after the racer has moved to `position`. */
  function Swerve(c: Car, segs: seq<Segment>, firstPos: real, dt: real, k: real, trackLength: real, position: real): real
    requires |segs| > 0 && c.stats.maxSpeedMod != 0.0 && firstPos != -1.0
  {
    Lateral(c, dt, k, Tf4(c, segs), CatchUp(firstPos, Progress(c, trackLength)), segs[SegIdx(position, |segs|)].curve)
  }

  /** Top speed with the speed-up factor `temp_factor_2 = 1 + 5·speedUp` (never negative). */
  function TopSpeed(c: Car): real
  {
    Max(0.0, MaxSpeed * c.stats.maxSpeedMod * (1.0 + c.status.speedUp * 5.0))
  }

  /** The new speed, within 1% of top speed times `1 + 5·speedUp`. */
  function Throttle(c: Car, x: real, dt: real, k: real, tf1: real, jitter: int): (v: real)
    requires 99 <= jitter <= 101
    ensures 0.0 <= v <= 1.01 * TopSpeed(c)
  {
    FinalSpeed(SpeedChain(c, x, dt, k, tf1), c.stats.maxSpeedMod, 1.0 + c.status.speedUp * 5.0, jitter)
  }

  /**
   * The racer's motion for the tick, given the segments and the leader's
   * progress: the position advances (clamped at twice the track length),
   * the racer moves sideways, and its speed is integrated and clamped.
   */
  function Drive(c: Car, segs: seq<Segment>, firstPos: real, dt: real, k: real, jitter: int, trackLength: real): (r: Car)
    requires |segs| > 0 && c.stats.maxSpeedMod != 0.0 && firstPos != -1.0 && 99 <= jitter <= 101
    ensures r.stats == c.stats && r.vitals == c.vitals && r.masks == c.masks && r.held == c.held
    ensures r.status == c.status.(speedUp := r.status.speedUp)
    ensures r.motion == c.motion.(position := r.motion.position, playerX := r.motion.playerX, speed := r.motion.speed)
    ensures -2.5 <= r.motion.playerX <= 2.5
    ensures 0.0 <= r.motion.speed <= 1.01 * TopSpeed(c)
    ensures trackLength >= 0.0 ==> 0.0 <= r.motion.position <= 2.0 * trackLength
    ensures 0.0 <= c.motion.position <= 2.0 * trackLength && c.motion.speed >= 0.0 && dt >= 0.0 && k >= 1.0 ==>
      c.motion.position <= r.motion.position
    ensures c.status.speedUp > 0.0 ==> r.status.speedUp == c.status.speedUp - dt * k
    ensures c.status.speedUp <= 0.0 ==> r.status.speedUp == c.status.speedUp
  {
    var position := Advance(c, segs, firstPos, dt, k, trackLength);
    var x := Swerve(c, segs, firstPos, dt, k, trackLength, position);
    var speed := Throttle(c, x, dt, k, CatchUp(firstPos, Progress(c, trackLength)), jitter);
    c.(status := c.status.(speedUp := if c.status.speedUp > 0.0 then c.status.speedUp - dt * k else c.status.speedUp),
       motion := c.motion.(position := position, playerX := Limit(x, -2.5, 2.5), speed := speed))
  }

  /** The speed-up `temp_factor_2` reads: 0.6 after a mini-turbo burst this tick, else the racer's own. */
  function SpeedUpAfterTurbo(c: Car, roll: int): real
  {
    if Boosts(c, roll) then 0.6 else c.status.speedUp
  }

  /** The speed cap of the tick, `max_speed · max_speed_mod · temp_factor_2` (never negative). */
  function TickTop(c: Car, roll: int): real
  {
    Max(0.0, MaxSpeed * c.stats.maxSpeedMod * (1.0 + SpeedUpAfterTurbo(c, roll) * 5.0))
  }

  /**
   * A racer's own step for the tick, in the order of `update`: the prelude
   * up to its attack, its health, its timers and then its motion along the
   * given segments. It keeps its lap and stats, stays on [-2.5, 2.5]
   * sideways, never reverses, never exceeds the tick's speed cap by more
   * than the 1% jitter, and once it has run its laps holds no item. The
   * roulette only draws from the skill table while it runs, so a racer with
   * an empty table is accepted as long as its roulette is stopped.
   */
  function OwnStep(c: Car, roll: int, pick: nat, jitter: int, segs: seq<Segment>, firstPos: real,
                   dt: real, k: real, trackLength: real): (r: Car)
    requires 0 <= roll <= c.status.hasBoosted + 1
    requires c.motion.laps != MaxLaps && c.held.itemScrolling > 0.0 ==> pick < |c.stats.itemChoice|
    requires |segs| > 0 && c.stats.maxSpeedMod != 0.0 && firstPos != -1.0 && 99 <= jitter <= 101 && k >= 1.0
    ensures r.stats == c.stats && r.motion.laps == c.motion.laps && r.held.place == c.held.place
    ensures -2.5 <= r.motion.playerX <= 2.5 && 0.0 <= r.motion.speed <= 1.01 * TickTop(c, roll)
    ensures trackLength >= 0.0 ==> 0.0 <= r.motion.position <= 2.0 * trackLength
    ensures 0.0 <= c.motion.position <= 2.0 * trackLength && c.motion.speed >= 0.0 && dt >= 0.0 ==>
      c.motion.position <= r.motion.position
    ensures c.motion.laps == MaxLaps ==> r.held.item.None?
    ensures c.motion.laps != MaxLaps && c.held.itemScrolling <= 0.0 ==> r.held == c.held
  {
    var pre := Prelude(c, roll, dt, k);
    assert TopSpeed(pre) == TickTop(c, roll);
    Rest(pre, pick, jitter, segs, firstPos, dt, k, trackLength)
  }

  /** The part of the own step after the attack: health, timers and motion. */
  function Rest(c: Car, pick: nat, jitter: int, segs: seq<Segment>, firstPos: real, dt: real, k: real, trackLength: real): (r: Car)
    requires c.held.itemScrolling > 0.0 ==> pick < |c.stats.itemChoice|
    requires |segs| > 0 && c.stats.maxSpeedMod != 0.0 && firstPos != -1.0 && 99 <= jitter <= 101 && k >= 1.0
    ensures r.stats == c.stats && r.motion.laps == c.motion.laps && r.held.place == c.held.place
    ensures -2.5 <= r.motion.playerX <= 2.5 && 0.0 <= r.motion.speed <= 1.01 * TopSpeed(c)
    ensures trackLength >= 0.0 ==> 0.0 <= r.motion.position <= 2.0 * trackLength
    ensures 0.0 <= c.motion.position <= 2.0 * trackLength && c.motion.speed >= 0.0 && dt >= 0.0 ==>
      c.motion.position <= r.motion.position
    ensures c.held.itemScrolling <= 0.0 ==> r.held == c.held
    ensures c.held.itemScrolling > 0.0 ==> r.held.item == Some(c.stats.itemChoice[pick])
  {
    var v := Vitality(c, k);
    assert v.motion.position == c.motion.position && v.motion.speed == c.motion.speed && v.held == c.held;
    var t := Timers(v, pick, dt, k);
    assert t.stats == c.stats && t.status.speedUp == c.status.speedUp && t.motion == v.motion;
    assert TopSpeed(t) == TopSpeed(c);
    Drive(t, segs, firstPos, dt, k, jitter, trackLength)
  }

  /** Two roads with the same curves segment by segment (their racer lists may differ). */
  predicate SameRoad(a: seq<Segment>, b: seq<Segment>)
  {
    |a| == |b| && forall i :: 0 <= i < |a| ==> a[i].curve == b[i].curve
  }

  /** Having the same curves is transitive. */
  lemma SameRoadTrans(a: seq<Segment>, b: seq<Segment>, c: seq<Segment>)
    requires SameRoad(a, b) && SameRoad(b, c)
    ensures SameRoad(a, c)
  {
    forall i | 0 <= i < |a|
      ensures a[i].curve == c[i].curve
    {
      assert a[i].curve == b[i].curve;
    }
  }

  /** A racer's motion reads only the curves of the road, not who is listed where. */
  lemma DriveSameRoad(c: Car, a: seq<Segment>, b: seq<Segment>, firstPos: real, dt: real, k: real, jitter: int, trackLength: real)
    requires |a| > 0 && SameRoad(a, b) && c.stats.maxSpeedMod != 0.0 && firstPos != -1.0 && 99 <= jitter <= 101
    ensures Drive(c, a, firstPos, dt, k, jitter, trackLength) == Drive(c, b, firstPos, dt, k, jitter, trackLength)
  {
    var position := Advance(c, a, firstPos, dt, k, trackLength);
    AdvanceSameRoad(c, a, b, firstPos, dt, k, trackLength);
    SwerveSameRoad(c, a, b, firstPos, dt, k, trackLength, position);
  }

  lemma AdvanceSameRoad(c: Car, a: seq<Segment>, b: seq<Segment>, firstPos: real, dt: real, k: real, trackLength: real)
    requires |a| > 0 && SameRoad(a, b) && firstPos != -1.0
    ensures Advance(c, a, firstPos, dt, k, trackLength) == Advance(c, b, firstPos, dt, k, trackLength)
  {
    Tf4SameRoad(c, a, b);
  }

  lemma Tf4SameRoad(c: Car, a: seq<Segment>, b: seq<Segment>)
    requires |a| > 0 && SameRoad(a, b)
    ensures Tf4(c, a) == Tf4(c, b)
  {
    var here := SegIdx(c.motion.position, |a|);
    assert a[here].curve == b[here].curve;
  }

  lemma SwerveSameRoad(c: Car, a: seq<Segment>, b: seq<Segment>, firstPos: real, dt: real, k: real, trackLength: real,
                       position: real)
    requires |a| > 0 && SameRoad(a, b) && c.stats.maxSpeedMod != 0.0 && firstPos != -1.0
    ensures Swerve(c, a, firstPos, dt, k, trackLength, position) == Swerve(c, b, firstPos, dt, k, trackLength, position)
  {
    Tf4SameRoad(c, a, b);
    var there := SegIdx(position, |a|);
    assert a[there].curve == b[there].curve;
  }

  /** So does a racer's whole own step. */
  lemma OwnStepSameRoad(c: Car, roll: int, pick: nat, jitter: int, a: seq<Segment>, b: seq<Segment>, firstPos: real,
                        dt: real, k: real, trackLength: real)
    requires 0 <= roll <= c.status.hasBoosted + 1
    requires c.motion.laps != MaxLaps && c.held.itemScrolling > 0.0 ==> pick < |c.stats.itemChoice|
    requires |a| > 0 && SameRoad(a, b) && c.stats.maxSpeedMod != 0.0 && firstPos != -1.0 && 99 <= jitter <= 101 && k >= 1.0
    ensures OwnStep(c, roll, pick, jitter, a, firstPos, dt, k, trackLength) == OwnStep(c, roll, pick, jitter, b, firstPos, dt, k, trackLength)
  {
    var pre := Prelude(c, roll, dt, k);
    var t := Timers(Vitality(pre, k), pick, dt, k);
    DriveSameRoad(t, a, b, firstPos, dt, k, jitter, trackLength);
  }

  lemma StepNonNegative(dt: real, speed: real, tf4: real, tf1: real, k: real)
    requires dt >= 0.0 && speed >= 0.0 && tf4 >= 1.0 && tf1 >= 1.0 && k >= 1.0
    ensures dt * speed * tf4 * tf1 * k >= 0.0
  {
    MulMono(0.0, dt * speed, 0.0, tf4);
    MulMono(0.0, dt * speed * tf4, 0.0, tf1);
    MulMono(0.0, dt * speed * tf4 * tf1, 0.0, k);
  }
}
