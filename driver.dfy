/**
 * Driving intents and skills (main.py `get_cpu_inputs`, `get_inputs`): the
 * CPU steering rule, the human's keyboard intents, the mini-turbo bank and
 * who each skill reaches and what it does to them.
 */
module Driver {
  import opened Arith
  import opened Wrappers
  import opened Player
  import opened Track
  import opened Items

  // ---------------------------------------------------------------- turbo bank

  /**
   * While a racer is not steering its turbo bank decays: `boostDiff` keeps
   * the peak of `boost`, and `boost` loses 0.1·k unless that would take it
   * below 0, in which case the decrement is undone.
   */
  function BankBoost(st: Status, k: real): (r: Status)
    ensures r == st.(boost := r.boost, boostDiff := r.boostDiff)
    ensures r.boostDiff >= st.boostDiff && r.boostDiff >= st.boost
    ensures r.boostDiff == st.boostDiff || r.boostDiff == st.boost
    ensures st.boost - 0.1 * k >= 0.0 ==> r.boost == st.boost - 0.1 * k
    ensures st.boost - 0.1 * k < 0.0 ==> r.boost == st.boost
  {
    var peak := if st.boost > st.boostDiff then st.boost else st.boostDiff;
    var b := st.boost - 0.1 * k;
    st.(boostDiff := peak, boost := if b < 0.0 then b + 0.1 * k else b)
  }

  /** The bank never drives a non-negative boost negative, and never raises it. */
  lemma BankKeepsBoostNonNegative(st: Status, k: real)
    requires st.boost >= 0.0 && k >= 1.0
    ensures 0.0 <= BankBoost(st, k).boost <= st.boost
  {
  }

  /** Steering charges the bank by 0.04·k a tick unless a Zio push is still active. */
  function Charge(st: Status, k: real): Status
  {
    if st.lightning <= 0.0 then st.(boost := st.boost + 0.04 * k) else st
  }

  // ---------------------------------------------------------------- CPU steering

  /** A racer steers only when it is neither spinning out nor frozen. */
  predicate InControl(c: Car)
  {
    c.status.noControl <= 0.0 && c.status.frozen <= 0.0
  }

  /** While a Hama or Mudo mask is visible the racer's steering is reversed. */
  predicate Reversed(c: Car)
  {
    c.masks.hamaAlpha > 0.0 || c.masks.mudoAlpha > 0.0
  }

  /** The CPU wants to steer left: drifted right of its lane in a left curve, or off the road on the right. */
  predicate WantsLeft(x: real, lane: real, curve: real)
  {
    (curve < 0.0 && x > lane) || x > 1.0
  }

  /** The mirror image of `WantsLeft`. */
  predicate WantsRight(x: real, lane: real, curve: real)
  {
    (curve > 0.0 && x < lane) || x < -1.0
  }

  /**
   * One CPU racer's intents for the tick on a segment with the given curve:
   * in control it always accelerates and steers by the rule, reversed under
   * a mask; charging the bank when it steers the intended way, banking when
   * it does not steer. Out of control it does nothing at all.
   */
  function CpuIntent(c: Car, curve: real, k: real): (r: Car)
    ensures r.stats == c.stats && r.vitals == c.vitals && r.masks == c.masks && r.held == c.held
    ensures r.motion == c.motion.(inputs := r.motion.inputs)
    ensures !InControl(c) ==> r.motion.inputs == NoInputs && r.status == c.status
    ensures InControl(c) ==> r.motion.inputs.accel
    ensures !(r.motion.inputs.left && r.motion.inputs.right)
    ensures InControl(c) && !Reversed(c) ==>
      && (r.motion.inputs.left <==> WantsLeft(c.motion.playerX, c.motion.lane, curve))
      && (r.motion.inputs.right <==> !WantsLeft(c.motion.playerX, c.motion.lane, curve)
                                     && WantsRight(c.motion.playerX, c.motion.lane, curve))
    ensures InControl(c) && Reversed(c) ==>
      && (r.motion.inputs.right <==> WantsLeft(c.motion.playerX, c.motion.lane, curve))
      && (r.motion.inputs.left <==> !WantsLeft(c.motion.playerX, c.motion.lane, curve)
                                    && WantsRight(c.motion.playerX, c.motion.lane, curve))
    ensures InControl(c) && !r.motion.inputs.left && !r.motion.inputs.right ==>
      r.status == BankBoost(c.status, k)
  {
    var m := c.motion;
    if !InControl(c) then c.(motion := m.(inputs := NoInputs))
    else if WantsLeft(m.playerX, m.lane, curve) then
      if !Reversed(c) then c.(motion := m.(inputs := Inputs(true, false, true)), status := Charge(c.status, k))
      else c.(motion := m.(inputs := Inputs(false, true, true)))
    else if WantsRight(m.playerX, m.lane, curve) then
      if !Reversed(c) then c.(motion := m.(inputs := Inputs(false, true, true)), status := Charge(c.status, k))
      else c.(motion := m.(inputs := Inputs(true, false, true)))
    else c.(motion := m.(inputs := Inputs(false, false, true)), status := BankBoost(c.status, k))
  }

  /** The rule is symmetric: mirroring position, lane and curve swaps left and right. */
  lemma CpuMirror(c: Car, curve: real, k: real)
    requires -1.0 <= c.motion.lane <= 1.0
    ensures var mc := c.(motion := c.motion.(playerX := -c.motion.playerX, lane := -c.motion.lane));
      && CpuIntent(mc, -curve, k).motion.inputs.left == CpuIntent(c, curve, k).motion.inputs.right
      && CpuIntent(mc, -curve, k).motion.inputs.right == CpuIntent(c, curve, k).motion.inputs.left
  {
    var x, lane := c.motion.playerX, c.motion.lane;
    assert !(WantsLeft(x, lane, curve) && WantsRight(x, lane, curve));
    assert WantsLeft(-x, -lane, -curve) <==> WantsRight(x, lane, curve);
    assert WantsRight(-x, -lane, -curve) <==> WantsLeft(x, lane, curve);
  }

  /** A CPU racer off the road always steers back towards it, unless a mask reverses it. */
  lemma CpuReturnsToRoad(c: Car, curve: real, k: real)
    requires InControl(c) && !Reversed(c) && -1.0 <= c.motion.lane <= 1.0
    ensures c.motion.playerX > 1.0 ==> CpuIntent(c, curve, k).motion.inputs.left
    ensures c.motion.playerX < -1.0 ==> CpuIntent(c, curve, k).motion.inputs.right
  {
  }

  // ---------------------------------------------------------------- human intents

  /**
   * The human's intents from the keyboard (left wins over right): steering
   * only while in control and reversed under a mask; when the racer ends up
   * not steering, the bank decays even while paused.
   */
  function HumanIntent(c: Car, paused: bool, left: bool, right: bool, accel: bool, k: real): (r: Car)
    ensures r.stats == c.stats && r.vitals == c.vitals && r.masks == c.masks && r.held == c.held
    ensures r.motion == c.motion.(inputs := r.motion.inputs)
    ensures paused ==> r.motion.inputs == c.motion.inputs
    ensures !paused ==> r.motion.inputs.accel == accel
    ensures !paused ==> !(r.motion.inputs.left && r.motion.inputs.right)
    ensures !paused && !InControl(c) ==> !r.motion.inputs.left && !r.motion.inputs.right
    ensures !paused && InControl(c) && !Reversed(c) ==>
      r.motion.inputs.left == left && r.motion.inputs.right == (right && !left)
    ensures !paused && InControl(c) && Reversed(c) ==>
      r.motion.inputs.right == left && r.motion.inputs.left == (right && !left)
    ensures !r.motion.inputs.left && !r.motion.inputs.right ==> r.status == BankBoost(c.status, k)
  {
    var m := c.motion;
    var c1 :=
      if paused then c
      else if left && InControl(c) then
        if !Reversed(c) then c.(motion := m.(inputs := Inputs(true, false, accel)), status := Charge(c.status, k))
        else c.(motion := m.(inputs := Inputs(false, true, accel)))
      else if !left && right && InControl(c) then
        if !Reversed(c) then c.(motion := m.(inputs := Inputs(false, true, accel)), status := Charge(c.status, k))
        else c.(motion := m.(inputs := Inputs(true, false, accel)))
      else c.(motion := m.(inputs := Inputs(false, false, accel)));
    if !c1.motion.inputs.left && !c1.motion.inputs.right then c1.(status := BankBoost(c1.status, k)) else c1
  }

  // ---------------------------------------------------------------- skills

  /** A racer may use its skill: it holds one and the roulette has stopped. */
  predicate CanUseSkill(c: Car)
  {
    c.held.item.Some? && c.held.itemScrolling <= 0.0
  }

  /** Agi (1) and Bufu (2) launch a fireball (8) or ice chunk (9) two segments ahead, at least twice top speed. */
  function Launch(c: Car, skill: int, owner: int): (it: Item)
    requires skill == 1 || skill == 2
    ensures it.num == (if skill == 1 then FireNum else IceNum) && it.owner == owner && it.level == 3.0
    ensures it.z == c.motion.position + 2.0 * L && it.x == c.motion.playerX
    ensures it.speed >= 2.0 * MaxSpeed && it.speed >= c.motion.speed
    ensures it.d == ProjectileLife
  {
    NewItem(if skill == 1 then FireNum else IceNum, c.motion.position + 2.0 * L, c.motion.playerX,
            Max(c.motion.speed, MaxSpeed * 2.0), owner, 3.0)
  }

  /** Garu: a speed-up of 0.6 and one and a half times top speed. */
  function Garu(c: Car): (r: Car)
    ensures r.status == c.status.(speedUp := 0.6)
    ensures r.motion == c.motion.(speed := 1.5 * MaxSpeed)
    ensures r.stats == c.stats && r.vitals == c.vitals && r.masks == c.masks && r.held == c.held
  {
    c.(status := c.status.(speedUp := 0.3 * 2.0), motion := c.motion.(speed := MaxSpeed * 1.5))
  }

  /** Zio reaches every other racer ahead of the caster that is still racing and not recovering. */
  predicate ZioReaches(t: Car, p: nat, exclude: int, casterPlace: int)
  {
    p != exclude && t.held.place < casterPlace && t.motion.laps != MaxLaps && !t.vitals.recover
  }

  /**
   * A Zio hit: a sideways push of 0.5 + place/16 to the given side, a hop, an
   * emptied bank (-1), a spin as long as the whole push and 25 damage.
   */
  function ZioHit(t: Car, left: bool): (r: Car)
    ensures r.vitals == t.vitals.(health := t.vitals.health - 25)
    ensures r.motion == t.motion.(flying := true)
    ensures r.status.boost == -1.0
    ensures r.status.lightning == t.status.lightning + (if left then -1.0 else 1.0) * (0.5 + (t.held.place as real) / 16.0)
    ensures r.status.noControl == t.status.noControl + Abs(r.status.lightning)
    ensures r.status.noControl >= t.status.noControl
    ensures r.stats == t.stats && r.masks == t.masks && r.held == t.held
  {
    var lightning := t.status.lightning + (if left then -1.0 else 1.0) * (0.5 + (t.held.place as real) / 16.0);
    t.(status := t.status.(lightning := lightning, boost := -1.0, noControl := t.status.noControl + Abs(lightning)),
       motion := t.motion.(flying := true),
       vitals := t.vitals.(health := t.vitals.health - 25))
  }

  /**
   * Hama and Mudo reach every other racer ahead of the caster that is not
   * under or casting either mask and is neither spinning out nor frozen.
   */
  predicate SpellReaches(t: Car, p: nat, exclude: int, casterPlace: int)
  {
    && p != exclude
    && t.masks.hamaAlpha <= 0.0 && t.masks.mudoAlpha <= 0.0
    && t.masks.hamaCastAlpha <= 0.0 && t.masks.mudoCastAlpha <= 0.0
    && InControl(t)
    && t.held.place < casterPlace
  }

  /** A racer a spell reaches is not yet reversed, so a second spell never stacks on it. */
  lemma SpellTargetsUnreversed(t: Car, p: nat, exclude: int, casterPlace: int)
    requires SpellReaches(t, p, exclude, casterPlace)
    ensures !Reversed(t) && InControl(t)
  {
  }

  /** Zio cast from place `casterPlace`: every racer it reaches is hit, pushed left when `signs[p]` holds. */
  function ZioAll(cs: seq<Car>, exclude: int, casterPlace: int, signs: seq<bool>): (r: seq<Car>)
    requires |signs| == |cs|
    ensures |r| == |cs|
  {
    seq(|cs|, p requires 0 <= p < |cs| =>
      if ZioReaches(cs[p], p, exclude, casterPlace) then ZioHit(cs[p], signs[p]) else cs[p])
  }

  /**
   * Zio hurts exactly the racers it reaches, each by 25, and moves nobody
   * along the track or sideways; the caster itself is never reached.
   */
  lemma ZioOnlyAhead(cs: seq<Car>, exclude: int, casterPlace: int, signs: seq<bool>)
    requires |signs| == |cs|
    ensures var r := ZioAll(cs, exclude, casterPlace, signs);
      forall p :: 0 <= p < |cs| ==>
        && r[p].motion.(flying := cs[p].motion.flying) == cs[p].motion
        && r[p].stats == cs[p].stats && r[p].held == cs[p].held
        && r[p].status.hasBoosted == cs[p].status.hasBoosted
        && (ZioReaches(cs[p], p, exclude, casterPlace) <==> r[p].vitals.health < cs[p].vitals.health)
        && (!ZioReaches(cs[p], p, exclude, casterPlace) ==> r[p] == cs[p])
        && (cs[p].held.place >= casterPlace ==> r[p] == cs[p])
  {
  }

  /** Hama (`hama` true) or Mudo cast from place `casterPlace`: every racer it reaches gets the mask. */
  function Spell(cs: seq<Car>, exclude: int, casterPlace: int, hama: bool): (r: seq<Car>)
    ensures |r| == |cs|
  {
    seq(|cs|, p requires 0 <= p < |cs| =>
      if SpellReaches(cs[p], p, exclude, casterPlace) then
        cs[p].(masks := if hama then cs[p].masks.(hama := true) else cs[p].masks.(mudo := true))
      else cs[p])
  }

  /**
   * A spell masks exactly the racers it reaches, none of which was reversed
   * already, and changes nothing else about anybody.
   */
  lemma SpellOnlyAhead(cs: seq<Car>, exclude: int, casterPlace: int, hama: bool)
    ensures var r := Spell(cs, exclude, casterPlace, hama);
      forall p :: 0 <= p < |cs| ==>
        && r[p] == cs[p].(masks := r[p].masks)
        && (SpellReaches(cs[p], p, exclude, casterPlace) ==>
              !Reversed(cs[p]) && (if hama then r[p].masks.hama else r[p].masks.mudo))
        && (!SpellReaches(cs[p], p, exclude, casterPlace) ==> r[p] == cs[p])
        && (cs[p].held.place >= casterPlace ==> r[p] == cs[p])
  {
    forall p | 0 <= p < |cs| && SpellReaches(cs[p], p, exclude, casterPlace)
      ensures !Reversed(cs[p])
    {
      SpellTargetsUnreversed(cs[p], p, exclude, casterPlace);
    }
  }

  /**
   * Racer i spends the skill it holds (1 Agi, 2 Bufu, 3 Garu, 4 Zio, 5 Hama,
   * 6 Mudo, 7 physical attack), giving `(cars, items)` afterwards. `owner`
   * owns a launched projectile and `exclude` is the index the spells skip;
   * a human caster also raises its own Hama or Mudo flag. A number outside
   * 1..7 does nothing and is kept.
   */
  function Cast(cs: seq<Car>, its: seq<Item>, i: nat, owner: int, exclude: int, human: bool, signs: seq<bool>)
    : (r: (seq<Car>, seq<Item>))
    requires i < |cs| && CanUseSkill(cs[i]) && |signs| == |cs|
    ensures |r.0| == |cs|
    ensures var s := cs[i].held.item.value;
      && ((s == 1 || s == 2) ==> r.1 == its + [Launch(cs[i], s, owner)])
      && (!(s == 1 || s == 2) ==> r.1 == its)
      && (1 <= s <= 7 ==> r.0[i].held == cs[i].held.(item := None))
      && (!(1 <= s <= 7) ==> r.0 == cs)
      && (s == 7 ==> r.0[i].status.attack == 90.0)
  {
    var c := cs[i];
    var s := c.held.item.value;
    var spent := c.held.(item := None);
    if s == 1 || s == 2 then (cs[i := c.(held := spent)], its + [Launch(c, s, owner)])
    else if s == 3 then (cs[i := Garu(c).(held := spent)], its)
    else if s == 4 then (ZioAll(cs, exclude, c.held.place, signs)[i := c.(held := spent)], its)
    else if s == 5 then
      (Spell(cs, exclude, c.held.place, true)[i := c.(held := spent, masks := c.masks.(hamaCast := c.masks.hamaCast || human))], its)
    else if s == 6 then
      (Spell(cs, exclude, c.held.place, false)[i := c.(held := spent, masks := c.masks.(mudoCast := c.masks.mudoCast || human))], its)
    else if s == 7 then (cs[i := c.(status := c.status.(attack := 90.0), held := spent)], its)
    else (cs, its)
  }

  /**
   * A skill reaches only racers ahead of its caster: every other racer that
   * changes held a better place and is not the excluded index; nobody moves
   * along the track, no lap or stat changes, and the caster never slows
   * below its speed or top speed.
   */
  lemma CastOnlyAhead(cs: seq<Car>, its: seq<Item>, i: nat, owner: int, exclude: int, human: bool, signs: seq<bool>)
    requires i < |cs| && CanUseSkill(cs[i]) && |signs| == |cs|
    ensures var r := Cast(cs, its, i, owner, exclude, human, signs).0;
      && (forall p :: 0 <= p < |cs| ==>
            && r[p].motion.position == cs[p].motion.position && r[p].motion.laps == cs[p].motion.laps
            && r[p].stats == cs[p].stats && r[p].held.place == cs[p].held.place
            && (cs[p].motion.speed >= 0.0 ==> r[p].motion.speed >= 0.0))
      && (forall p :: 0 <= p < |cs| && p != i && r[p] != cs[p] ==>
            cs[p].held.place < cs[i].held.place && p != exclude)
  {
    var c := cs[i];
    var s := c.held.item.value;
    if s == 4 {
      ZioOnlyAhead(cs, exclude, c.held.place, signs);
    } else if s == 5 || s == 6 {
      SpellOnlyAhead(cs, exclude, c.held.place, s == 5);
    }
  }

  /** What a launched projectile looks like to the item invariant: a well-formed fireball or ice chunk. */
  lemma LaunchIsItem(c: Car, skill: int, owner: int, trackLength: real)
    requires skill == 1 || skill == 2
    requires c.motion.position >= 0.0 && c.motion.speed >= 0.0
    ensures ItemOk(Launch(c, skill, owner), trackLength)
  {
  }

  /** A cast by a racer on the track with a non-negative speed leaves every item well formed. */
  lemma CastKeepsItems(cs: seq<Car>, its: seq<Item>, i: nat, owner: int, exclude: int, human: bool, signs: seq<bool>,
                       trackLength: real)
    requires i < |cs| && CanUseSkill(cs[i]) && |signs| == |cs|
    requires cs[i].motion.position >= 0.0 && cs[i].motion.speed >= 0.0
    requires forall j :: 0 <= j < |its| ==> ItemOk(its[j], trackLength)
    ensures var r := Cast(cs, its, i, owner, exclude, human, signs).1;
      forall j :: 0 <= j < |r| ==> ItemOk(r[j], trackLength)
  {
    var s := cs[i].held.item.value;
    if s == 1 || s == 2 {
      LaunchIsItem(cs[i], s, owner, trackLength);
    }
  }

  /**
   * Cast by racer 0 as its own owner, as the keyboard branch does: no
   * projectile it adds can ever hit racer 0, wherever it has travelled, and
   * Zio reaches every racer ahead of it that is racing and not recovering.
   */
  lemma HumanCastSparesCaster(cs: seq<Car>, its: seq<Item>, signs: seq<bool>, victim: Car, z: real, dt: real)
    requires 0 < |cs| && CanUseSkill(cs[0]) && |signs| == |cs|
    ensures var r := Cast(cs, its, 0, 0, 0, true, signs).1;
      forall j :: |its| <= j < |r| ==> !Hits(r[j].(z := z), victim, 0, dt)
    ensures forall p :: 1 <= p < |cs| ==>
      (ZioReaches(cs[p], p, 0, cs[0].held.place) <==>
         cs[p].held.place < cs[0].held.place && cs[p].motion.laps != MaxLaps && !cs[p].vitals.recover)
  {
  }

  /**
   * The gamepad branch passes the joystick's index as owner and exclusion.
   * With a second pad (index 1) driving racer 0, racer 0's own fireball hits
   * it once it has come round to it, and racer 1 ahead of it is immune to
   * its Zio.
   */
  lemma PadCastHitsCaster(c: Car, t: Car)
    requires c.motion.speed < 2.0 * MaxSpeed && c.motion.laps != MaxLaps && c.motion.playerY <= 0.0
    requires t.held.place < c.held.place && t.motion.laps != MaxLaps && !t.vitals.recover
    ensures Hits(Launch(c, 1, 1).(z := c.motion.position), c, 0, 1.0 / 60.0)
    ensures ZioReaches(t, 1, 0, c.held.place) && !ZioReaches(t, 1, 1, c.held.place)
  {
    var it := Launch(c, 1, 1);
    assert it.speed >= 2.0 * MaxSpeed;
    assert (1.0 / 60.0) * c.motion.speed < (1.0 / 60.0) * it.speed;
  }

  // ---------------------------------------------------------------- CPU pass

  /**
   * One CPU racer's turn in `get_cpu_inputs`, on a segment with the given
   * curve: its intents, then, in control with a skill and its 2% roll
   * (`use`) up, the skill cast as owner and excluded index i.
   */
  function CpuTurn(cs: seq<Car>, its: seq<Item>, i: nat, curve: real, k: real, use: bool, signs: seq<bool>)
    : (r: (seq<Car>, seq<Item>))
    requires i < |cs| && |signs| == |cs|
    ensures |r.0| == |cs|
  {
    var c := CpuIntent(cs[i], curve, k);
    if InControl(cs[i]) && use && CanUseSkill(c) then Cast(cs[i := c], its, i, i, i, false, signs)
    else (cs[i := c], its)
  }

  /** `get_cpu_inputs` over racers 1 to n - 1 in order. */
  function CpuPass(cs: seq<Car>, its: seq<Item>, segs: seq<Segment>, k: real, uses: seq<bool>, signs: seq<seq<bool>>, n: nat)
    : (r: (seq<Car>, seq<Item>))
    requires n <= |cs| && |uses| == |cs| && |signs| == |cs| && |segs| > 0
    requires forall i :: 0 <= i < |signs| ==> |signs[i]| == |cs|
    ensures |r.0| == |cs|
  {
    if n <= 1 then (cs, its)
    else
      var prev := CpuPass(cs, its, segs, k, uses, signs, n - 1);
      var curve := segs[SegIdx(prev.0[n - 1].motion.position, |segs|)].curve;
      CpuTurn(prev.0, prev.1, n - 1, curve, k, uses[n - 1], signs[n - 1])
  }

  /** One CPU turn keeps what `CpuPassKeeps` promises, for racer i and everybody else. */
  lemma CpuTurnKeeps(cs: seq<Car>, its: seq<Item>, i: nat, curve: real, k: real, use: bool, signs: seq<bool>,
                     trackLength: real)
    requires i < |cs| && |signs| == |cs|
    ensures var r := CpuTurn(cs, its, i, curve, k, use, signs);
      && (forall p :: 0 <= p < |cs| ==>
            && r.0[p].motion.position == cs[p].motion.position && r.0[p].motion.laps == cs[p].motion.laps
            && r.0[p].stats == cs[p].stats && r.0[p].held.place == cs[p].held.place
            && (cs[p].motion.speed >= 0.0 ==> r.0[p].motion.speed >= 0.0)
            && (p != i ==> r.0[p].motion.inputs == cs[p].motion.inputs))
      && !(r.0[i].motion.inputs.left && r.0[i].motion.inputs.right)
      && |its| <= |r.1| && r.1[..|its|] == its
      && (cs[i].motion.position >= 0.0 && cs[i].motion.speed >= 0.0 && (forall j :: 0 <= j < |its| ==> ItemOk(its[j], trackLength))
          ==> forall j :: 0 <= j < |r.1| ==> ItemOk(r.1[j], trackLength))
  {
    var c := CpuIntent(cs[i], curve, k);
    if InControl(cs[i]) && use && CanUseSkill(c) {
      CastOnlyAhead(cs[i := c], its, i, i, i, false, signs);
      CastKeepsInputs(cs[i := c], its, i, i, i, false, signs);
      if cs[i].motion.position >= 0.0 && cs[i].motion.speed >= 0.0 && (forall j :: 0 <= j < |its| ==> ItemOk(its[j], trackLength)) {
        CastKeepsItems(cs[i := c], its, i, i, i, false, signs, trackLength);
      }
    }
  }

  /** A skill never changes anybody's intents. */
  lemma CastKeepsInputs(cs: seq<Car>, its: seq<Item>, i: nat, owner: int, exclude: int, human: bool, signs: seq<bool>)
    requires i < |cs| && CanUseSkill(cs[i]) && |signs| == |cs|
    ensures var r := Cast(cs, its, i, owner, exclude, human, signs).0;
      forall p :: 0 <= p < |cs| ==> r[p].motion.inputs == cs[p].motion.inputs
  {
    var c := cs[i];
    var s := c.held.item.value;
    if s == 4 {
      ZioOnlyAhead(cs, exclude, c.held.place, signs);
    } else if s == 5 || s == 6 {
      SpellOnlyAhead(cs, exclude, c.held.place, s == 5);
    }
  }

  /**
   * The CPU pass moves nobody and changes no lap or stat; it never touches
   * the human's intents; every CPU racer ends with at most one steering
   * flag; and the items before it stay in front of any it adds.
   */
  lemma {:induction false} CpuPassKeeps(cs: seq<Car>, its: seq<Item>, segs: seq<Segment>, k: real,
                                       uses: seq<bool>, signs: seq<seq<bool>>, n: nat, trackLength: real)
    requires n <= |cs| && |uses| == |cs| && |signs| == |cs| && |segs| > 0
    requires forall i :: 0 <= i < |signs| ==> |signs[i]| == |cs|
    ensures var r := CpuPass(cs, its, segs, k, uses, signs, n);
      && (forall p :: 0 <= p < |cs| ==>
            && r.0[p].motion.position == cs[p].motion.position && r.0[p].motion.laps == cs[p].motion.laps
            && r.0[p].stats == cs[p].stats && r.0[p].held.place == cs[p].held.place
            && (cs[p].motion.speed >= 0.0 ==> r.0[p].motion.speed >= 0.0))
      && (|cs| > 0 ==> r.0[0].motion.inputs == cs[0].motion.inputs)
      && (forall p :: 1 <= p < n ==> !(r.0[p].motion.inputs.left && r.0[p].motion.inputs.right))
      && |its| <= |r.1| && r.1[..|its|] == its
      && ((forall p :: 0 <= p < |cs| ==> cs[p].motion.position >= 0.0 && cs[p].motion.speed >= 0.0)
          && (forall j :: 0 <= j < |its| ==> ItemOk(its[j], trackLength))
          ==> forall j :: 0 <= j < |r.1| ==> ItemOk(r.1[j], trackLength))
  {
    if n > 1 {
      CpuPassKeeps(cs, its, segs, k, uses, signs, n - 1, trackLength);
      var prev := CpuPass(cs, its, segs, k, uses, signs, n - 1);
      var i := n - 1;
      CpuTurnKeeps(prev.0, prev.1, i, segs[SegIdx(prev.0[i].motion.position, |segs|)].curve, k, uses[i], signs[i], trackLength);
    }
  }
}
