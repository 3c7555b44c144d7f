/**
 * The race (main.py `reset`, `reset_road`, `add_segment`, `add_road`,
 * `reset_cars`, `update_car`, `update_items`, `update`, `get_new_lap`,
 * `update_places`, `get_cpu_inputs` and the intents and skill use of
 * `get_inputs`): one object holding the racers, the segments with their car
 * lists and the items, updated in place tick by tick.
 */
module Race {
  import opened Arith
  import opened Wrappers
  import opened Track
  import opened Player
  import opened Items
  import opened Physics
  import opened Driver
  import opened Standings

  function Positions(cs: seq<Car>): (ps: seq<real>)
    ensures |ps| == |cs| && forall i :: 0 <= i < |cs| ==> ps[i] == cs[i].motion.position
  {
    seq(|cs|, i requires 0 <= i < |cs| => cs[i].motion.position)
  }

  /** What every racer keeps between ticks: inside the lap, on lap 1 or later, not reversing. */
  predicate CarOk(c: Car, trackLength: real)
  {
    && 0.0 <= c.motion.position <= trackLength
    && c.motion.speed >= 0.0
    && c.motion.laps >= 1
    && c.stats.maxSpeedMod != 0.0
  }

  /**
   * The roulette of a racer still racing only runs on a non-empty skill
   * table: `random.choice` of an empty list raises, so `update` needs this of
   * every racer whose roulette a pickup has started.
   */
  predicate ChoiceReady(c: Car)
  {
    c.motion.laps != MaxLaps && c.held.itemScrolling > 0.0 ==> |c.stats.itemChoice| > 0
  }

  predicate AllReady(cs: seq<Car>)
  {
    forall q :: 0 <= q < |cs| ==> ChoiceReady(cs[q])
  }

  /** Every racer has run all its laps. */
  predicate AllDone(cs: seq<Car>)
  {
    forall q :: 0 <= q < |cs| ==> cs[q].motion.laps == MaxLaps
  }

  /**
   * What the racer of turn p may change about racer q: a strike or nothing,
   * so at most its health, its hop and its spin-out timer.
   */
  predicate Bystander(before: Car, after: Car)
  {
    && after.motion == before.motion.(flying := after.motion.flying)
    && after.stats == before.stats && after.held == before.held && after.masks == before.masks
    && after.status == before.status.(noControl := after.status.noControl)
  }

  /** What a racer's own turn leaves: moved forward, clamped sideways, laps untouched. */
  predicate Moved(before: Car, after: Car, trackLength: real)
  {
    && before.motion.position <= after.motion.position <= 2.0 * trackLength
    && -2.5 <= after.motion.playerX <= 2.5
    && after.motion.speed >= 0.0
    && after.motion.laps == before.motion.laps
    && after.stats == before.stats
  }

  /** What every racer keeps during a tick, before `get_new_lap` brings it back inside the lap. */
  predicate Racing(c: Car, trackLength: real)
  {
    && 0.0 <= c.motion.position <= 2.0 * trackLength
    && c.motion.speed >= 0.0
    && c.motion.laps >= 1
    && c.stats.maxSpeedMod != 0.0
  }

  predicate AllRacing(cs: seq<Car>, trackLength: real)
  {
    forall q :: 0 <= q < |cs| ==> Racing(cs[q], trackLength)
  }

  /** What a tick's loop leaves of a racer: same stats and lap, not moved back, inside twice the track. */
  predicate Advanced(before: Car, after: Car, trackLength: real)
  {
    && after.stats == before.stats
    && after.motion.laps == before.motion.laps
    && before.motion.position <= after.motion.position <= 2.0 * trackLength
    && after.motion.speed >= 0.0
  }

  /**
   * The lap wrap at the end of a tick brings every racer the loop advanced
   * back inside the lap, on the same lap or (in a race) the next; in a race
   * no racer's progress over the whole tick is negative.
   */
  lemma WrapKeepsRacers(before: seq<Car>, moved: seq<Car>, after: seq<Car>, isTitle: bool, trackLength: real)
    requires |moved| == |before| && |after| == |before|
    requires forall q :: 0 <= q < |before| ==>
      && Racing(moved[q], trackLength) && Advanced(before[q], moved[q], trackLength)
      && after[q] == NewLap(moved[q], false, isTitle, trackLength)
    ensures forall q :: 0 <= q < |before| ==>
      && CarOk(after[q], trackLength) && after[q].stats == before[q].stats
      && before[q].motion.laps <= after[q].motion.laps <= before[q].motion.laps + (if isTitle then 0 else 1)
    ensures !isTitle ==> forall q :: 0 <= q < |before| ==>
      Progress(before[q], trackLength) <= Progress(after[q], trackLength)
  {
    forall q | 0 <= q < |before|
      ensures CarOk(after[q], trackLength)
      ensures !isTitle ==> Progress(before[q], trackLength) <= Progress(after[q], trackLength)
    {
      NewLapInRange(moved[q], false, isTitle, trackLength);
      NewLapKeepsProgress(moved[q], trackLength);
    }
  }

  /** Racer p's physical attack on everybody else: a strike on each racer it reaches. */
  function Attack(cs: seq<Car>, p: nat, k: real): (r: seq<Car>)
    requires p < |cs| && k >= 1.0
    ensures |r| == |cs|
  {
    seq(|cs|, q requires 0 <= q < |cs| => if q != p && Strikes(cs[p], cs[q]) then Struck(cs[q], k) else cs[q])
  }

  /**
   * The attack only hurts: the attacker and every racer it does not reach
   * are untouched, and a racer loses at least 10 health exactly when it is
   * struck; nobody moves along the track or sideways.
   */
  lemma AttackOnlyHurts(cs: seq<Car>, p: nat, k: real)
    requires p < |cs| && k >= 1.0
    ensures var r := Attack(cs, p, k);
      && r[p] == cs[p]
      && (forall q :: 0 <= q < |cs| ==> Bystander(cs[q], r[q]) && r[q].vitals.health <= cs[q].vitals.health)
      && (forall q :: 0 <= q < |cs| && q != p && !Strikes(cs[p], cs[q]) ==> r[q] == cs[q])
      && (forall q :: 0 <= q < |cs| && q != p ==>
            (Strikes(cs[p], cs[q]) <==> r[q].vitals.health <= cs[q].vitals.health - 10))
  {
  }

  /** Racer p's draw of `randint(0, has_boosted + 1)`, taken from an arbitrary natural. */
  function Roll(c: Car, roll: nat): (r: int)
    ensures 0 <= r <= c.status.hasBoosted + 1
  {
    roll % (c.status.hasBoosted + 2)
  }

  /** Racer p's draw of `random.choice(item_choice)` as an index (0, never read, for an empty table). */
  function Pick(c: Car, pick: nat): (r: nat)
    ensures |c.stats.itemChoice| > 0 ==> r < |c.stats.itemChoice|
  {
    if |c.stats.itemChoice| > 0 then pick % |c.stats.itemChoice| else 0
  }

  /**
   * Racer p's turn on the racers as they stand: p takes its own step and,
   * when its attack timer was running, strikes every other racer in reach.
   */
  function TurnOf(cs: seq<Car>, p: nat, firstPos: real, roll: int, pick: nat, jitter: int, segs: seq<Segment>,
                  dt: real, k: real, trackLength: real): (r: seq<Car>)
    requires p < |cs| && 0 <= roll <= cs[p].status.hasBoosted + 1
    requires cs[p].motion.laps != MaxLaps && cs[p].held.itemScrolling > 0.0 ==> pick < |cs[p].stats.itemChoice|
    requires |segs| > 0 && cs[p].stats.maxSpeedMod != 0.0 && firstPos != -1.0 && 99 <= jitter <= 101 && k >= 1.0
    ensures |r| == |cs|
  {
    seq(|cs|, q requires 0 <= q < |cs| =>
      if q == p then OwnStep(cs[p], roll, pick, jitter, segs, firstPos, dt, k, trackLength)
      else if cs[p].status.attack > 0.0 && Strikes(cs[p], cs[q]) then Struck(cs[q], k)
      else cs[q])
  }

  /** Racer p's turn changes racer p by its own step and any other racer by at most a strike. */
  lemma TurnOfKeeps(cs: seq<Car>, p: nat, firstPos: real, roll: int, pick: nat, jitter: int, segs: seq<Segment>,
                    dt: real, k: real, trackLength: real)
    requires p < |cs| && 0 <= roll <= cs[p].status.hasBoosted + 1
    requires cs[p].motion.laps != MaxLaps && cs[p].held.itemScrolling > 0.0 ==> pick < |cs[p].stats.itemChoice|
    requires |segs| > 0 && cs[p].stats.maxSpeedMod != 0.0 && firstPos != -1.0 && 99 <= jitter <= 101 && k >= 1.0
    ensures var r := TurnOf(cs, p, firstPos, roll, pick, jitter, segs, dt, k, trackLength);
      && r[p] == OwnStep(cs[p], roll, pick, jitter, segs, firstPos, dt, k, trackLength)
      && forall q :: 0 <= q < |cs| && q != p ==> Bystander(cs[q], r[q])
  {
  }

  /** A turn on two roads with the same curves is the same turn. */
  lemma TurnOfSameRoad(cs: seq<Car>, p: nat, firstPos: real, roll: int, pick: nat, jitter: int, a: seq<Segment>,
                       b: seq<Segment>, dt: real, k: real, trackLength: real)
    requires p < |cs| && 0 <= roll <= cs[p].status.hasBoosted + 1
    requires cs[p].motion.laps != MaxLaps && cs[p].held.itemScrolling > 0.0 ==> pick < |cs[p].stats.itemChoice|
    requires |a| > 0 && SameRoad(a, b) && cs[p].stats.maxSpeedMod != 0.0 && firstPos != -1.0 && 99 <= jitter <= 101 && k >= 1.0
    ensures TurnOf(cs, p, firstPos, roll, pick, jitter, a, dt, k, trackLength)
         == TurnOf(cs, p, firstPos, roll, pick, jitter, b, dt, k, trackLength)
  {
    OwnStepSameRoad(cs[p], roll, pick, jitter, a, b, firstPos, dt, k, trackLength);
  }

  /**
   * Racer p's turn inside `update`'s loop: it reads the leader's progress
   * from the racers as they stand and takes its turn with its own draws.
   * Every racer keeps racing, with its stats, lap and ready roulette.
   */
  function TurnAt(cs: seq<Car>, p: nat, segs: seq<Segment>, rolls: seq<nat>, picks: seq<nat>, jitters: seq<int>,
                  dt: real, k: real, trackLength: real): (r: seq<Car>)
    requires p < |cs| && |rolls| == |cs| && |picks| == |cs| && |jitters| == |cs|
    requires forall q :: 0 <= q < |jitters| ==> 99 <= jitters[q] <= 101
    requires |segs| > 0 && dt >= 0.0 && k >= 1.0 && trackLength >= 0.0
    requires AllRacing(cs, trackLength)
    requires AllReady(cs)
    ensures |r| == |cs| && AllReady(r)
    ensures AllRacing(r, trackLength) && AllDone(r) == AllDone(cs)
    ensures forall q :: 0 <= q < |cs| ==> r[q].stats == cs[q].stats && r[q].motion.laps == cs[q].motion.laps
    ensures cs[p].motion.position <= r[p].motion.position && -2.5 <= r[p].motion.playerX <= 2.5
    ensures r[p].motion.speed <= 1.01 * TickTop(cs[p], Roll(cs[p], rolls[p]))
    ensures forall q :: 0 <= q < |cs| && q != p ==> Bystander(cs[q], r[q])
  {
    LeaderAhead(cs, p, trackLength);
    assert Racing(cs[p], trackLength) && ChoiceReady(cs[p]);
    var firstPos, roll, pick := FirstPos(cs, p, trackLength), Roll(cs[p], rolls[p]), Pick(cs[p], picks[p]);
    var r := TurnOf(cs, p, firstPos, roll, pick, jitters[p], segs, dt, k, trackLength);
    TurnOfKeeps(cs, p, firstPos, roll, pick, jitters[p], segs, dt, k, trackLength);
    TurnKeepsRacing(cs, r, p, trackLength);
    r
  }

  /** A turn that leaves racer p racing and ready, and the others bystanders, leaves every racer so. */
  lemma TurnKeepsRacing(cs: seq<Car>, r: seq<Car>, p: nat, trackLength: real)
    requires p < |cs| && |r| == |cs| && AllRacing(cs, trackLength) && AllReady(cs)
    requires Racing(r[p], trackLength) && ChoiceReady(r[p])
    requires r[p].stats == cs[p].stats && r[p].motion.laps == cs[p].motion.laps
    requires forall q :: 0 <= q < |cs| && q != p ==> Bystander(cs[q], r[q])
    ensures AllRacing(r, trackLength) && AllReady(r) && AllDone(r) == AllDone(cs)
    ensures forall q :: 0 <= q < |cs| ==> r[q].stats == cs[q].stats && r[q].motion.laps == cs[q].motion.laps
  {
    forall q | 0 <= q < |cs|
      ensures Racing(r[q], trackLength) && ChoiceReady(r[q])
      ensures r[q].stats == cs[q].stats && r[q].motion.laps == cs[q].motion.laps
    {
      if q != p {
        assert Bystander(cs[q], r[q]) && Racing(cs[q], trackLength) && ChoiceReady(cs[q]);
      }
    }
  }

  /** The leader's progress read by a racing racer is never negative. */
  lemma LeaderAhead(cs: seq<Car>, p: nat, trackLength: real)
    requires trackLength >= 0.0
    requires AllRacing(cs, trackLength)
    ensures FirstPos(cs, p, trackLength) >= 0.0
  {
    forall q | 0 <= q < |cs|
      ensures cs[q].motion.position >= 0.0 && cs[q].motion.laps >= 1
    {
      assert Racing(cs[q], trackLength);
    }
    FirstPosNonNegative(cs, p, trackLength);
  }

  /** The first n turns of `update`'s loop over the racers, in list order. */
  function Turns(cs: seq<Car>, n: nat, segs: seq<Segment>, rolls: seq<nat>, picks: seq<nat>, jitters: seq<int>,
                 dt: real, k: real, trackLength: real): (r: seq<Car>)
    requires n <= |cs| && |rolls| == |cs| && |picks| == |cs| && |jitters| == |cs|
    requires forall q :: 0 <= q < |jitters| ==> 99 <= jitters[q] <= 101
    requires |segs| > 0 && dt >= 0.0 && k >= 1.0 && trackLength >= 0.0
    requires AllRacing(cs, trackLength)
    requires AllReady(cs)
    ensures |r| == |cs| && AllReady(r)
    ensures AllRacing(r, trackLength) && AllDone(r) == AllDone(cs)
    ensures forall q :: 0 <= q < |cs| ==> r[q].stats == cs[q].stats && r[q].motion.laps == cs[q].motion.laps
    decreases n
  {
    if n == 0 then cs
    else TurnAt(Turns(cs, n - 1, segs, rolls, picks, jitters, dt, k, trackLength), n - 1, segs, rolls, picks, jitters,
                dt, k, trackLength)
  }

  /** A racer list that racer p's turn describes racer by racer is that turn. */
  lemma TurnOfIs(prev: seq<Car>, next: seq<Car>, p: nat, firstPos: real, roll: int, pick: nat, jitter: int,
                 segs: seq<Segment>, dt: real, k: real, trackLength: real)
    requires p < |prev| && 0 <= roll <= prev[p].status.hasBoosted + 1
    requires prev[p].motion.laps != MaxLaps && prev[p].held.itemScrolling > 0.0 ==> pick < |prev[p].stats.itemChoice|
    requires |segs| > 0 && prev[p].stats.maxSpeedMod != 0.0 && firstPos != -1.0 && 99 <= jitter <= 101 && k >= 1.0
    requires |next| == |prev|
    requires next[p] == OwnStep(prev[p], roll, pick, jitter, segs, firstPos, dt, k, trackLength)
    requires forall q :: 0 <= q < |prev| && q != p ==>
      next[q] == if prev[p].status.attack > 0.0 && Strikes(prev[p], prev[q]) then Struck(prev[q], k) else prev[q]
    ensures next == TurnOf(prev, p, firstPos, roll, pick, jitter, segs, dt, k, trackLength)
  {
    var turned := TurnOf(prev, p, firstPos, roll, pick, jitter, segs, dt, k, trackLength);
    assert forall q :: 0 <= q < |prev| ==> next[q] == turned[q];
  }

  /**
   * Racer p's turn, taken on a road with the same curves as the road the
   * loop started on, is its turn in the loop.
   */
  lemma TurnAtSameRoad(prev: seq<Car>, next: seq<Car>, p: nat, segs: seq<Segment>, road: seq<Segment>,
                       rolls: seq<nat>, picks: seq<nat>, jitters: seq<int>, dt: real, k: real, trackLength: real)
    requires p < |prev| && |rolls| == |prev| && |picks| == |prev| && |jitters| == |prev|
    requires forall q :: 0 <= q < |jitters| ==> 99 <= jitters[q] <= 101
    requires |road| > 0 && SameRoad(road, segs) && dt >= 0.0 && k >= 1.0 && trackLength >= 0.0
    requires AllRacing(prev, trackLength) && AllReady(prev) && FirstPos(prev, p, trackLength) >= 0.0
    requires ChoiceReady(prev[p]) && Racing(prev[p], trackLength)
    requires next == TurnOf(prev, p, FirstPos(prev, p, trackLength), Roll(prev[p], rolls[p]), Pick(prev[p], picks[p]),
                            jitters[p], segs, dt, k, trackLength)
    ensures next == TurnAt(prev, p, road, rolls, picks, jitters, dt, k, trackLength)
  {
    TurnOfSameRoad(prev, p, FirstPos(prev, p, trackLength), Roll(prev[p], rolls[p]), Pick(prev[p], picks[p]), jitters[p],
                   road, segs, dt, k, trackLength);
  }

  /**
   * What the turns do to each racer: nobody moves back; a racer whose turn
   * has come is on [-2.5, 2.5] sideways and within 1% of the speed cap of its
   * own tick; a racer whose turn has not come has at most been struck.
   */
  lemma {:induction false} TurnsKeep(cs: seq<Car>, n: nat, segs: seq<Segment>, rolls: seq<nat>, picks: seq<nat>,
                                     jitters: seq<int>, dt: real, k: real, trackLength: real)
    requires n <= |cs| && |rolls| == |cs| && |picks| == |cs| && |jitters| == |cs|
    requires forall q :: 0 <= q < |jitters| ==> 99 <= jitters[q] <= 101
    requires |segs| > 0 && dt >= 0.0 && k >= 1.0 && trackLength >= 0.0
    requires AllRacing(cs, trackLength)
    requires AllReady(cs)
    ensures TurnsBounded(cs, Turns(cs, n, segs, rolls, picks, jitters, dt, k, trackLength), n, rolls, trackLength)
  {
    if n > 0 {
      TurnsKeep(cs, n - 1, segs, rolls, picks, jitters, dt, k, trackLength);
      var prev := Turns(cs, n - 1, segs, rolls, picks, jitters, dt, k, trackLength);
      var p := n - 1;
      var r := TurnAt(prev, p, segs, rolls, picks, jitters, dt, k, trackLength);
      assert Racing(prev[p], trackLength) && Racing(r[p], trackLength);
      assert TurnsBounded(cs, prev, p, rolls, trackLength);
      assert -2.5 <= r[p].motion.playerX <= 2.5;
      assert r[p].motion.speed <= 1.01 * TickTop(prev[p], Roll(prev[p], rolls[p]));
      assert r[p].stats == prev[p].stats && r[p].motion.laps == prev[p].motion.laps;
      assert prev[p].motion.position <= r[p].motion.position <= 2.0 * trackLength && r[p].motion.speed >= 0.0;
      assert forall q :: 0 <= q < |cs| && q != p ==> Bystander(prev[q], r[q]);
      TurnStepBounded(cs, prev, r, p, rolls, trackLength);
    }
  }

  /** What the first n turns leave of each racer, against the racers before the loop. */
  predicate TurnsBounded(cs: seq<Car>, r: seq<Car>, n: nat, rolls: seq<nat>, trackLength: real)
    requires |r| == |cs| && |rolls| == |cs| && n <= |cs|
  {
    && (forall q :: 0 <= q < |cs| ==> Advanced(cs[q], r[q], trackLength))
    && (forall q :: n <= q < |cs| ==> Bystander(cs[q], r[q]))
    && (forall q :: 0 <= q < n ==>
          && -2.5 <= r[q].motion.playerX <= 2.5
          && r[q].motion.speed <= 1.01 * TickTop(cs[q], Roll(cs[q], rolls[q])))
  }

  /** One more turn, by racer p, keeps `TurnsBounded` for one racer more. */
  lemma TurnStepBounded(cs: seq<Car>, prev: seq<Car>, r: seq<Car>, p: nat, rolls: seq<nat>, trackLength: real)
    requires p < |cs| && |prev| == |cs| && |r| == |cs| && |rolls| == |cs|
    requires TurnsBounded(cs, prev, p, rolls, trackLength)
    requires Racing(prev[p], trackLength)
    requires -2.5 <= r[p].motion.playerX <= 2.5
    requires r[p].motion.speed <= 1.01 * TickTop(prev[p], Roll(prev[p], rolls[p]))
    requires r[p].stats == prev[p].stats && r[p].motion.laps == prev[p].motion.laps
    requires prev[p].motion.position <= r[p].motion.position <= 2.0 * trackLength && r[p].motion.speed >= 0.0
    requires forall q :: 0 <= q < |cs| && q != p ==> Bystander(prev[q], r[q])
    ensures TurnsBounded(cs, r, p + 1, rolls, trackLength)
  {
    assert Bystander(cs[p], prev[p]);
    assert Roll(prev[p], rolls[p]) == Roll(cs[p], rolls[p]);
    assert TickTop(prev[p], Roll(prev[p], rolls[p])) == TickTop(cs[p], Roll(cs[p], rolls[p]));
  }

  /** What the item sweep leaves of a racer: where it was, on its lap, with its stats and turbo state. */
  predicate Swept(before: Car, after: Car)
  {
    && after.motion.position == before.motion.position && after.motion.laps == before.motion.laps
    && after.stats == before.stats && after.status.hasBoosted == before.status.hasBoosted
    && after.status.speedUp == before.status.speedUp && after.status.boostDiff == before.status.boostDiff
  }

  /** The item sweep keeps every racer racing, and a swept racer has the speed cap it had. */
  lemma SweepKeepsRacing(its: seq<Item>, cs: seq<Car>, dt: real, k: real, trackLength: real)
    requires trackLength > 0.0 && forall q :: 0 <= q < |cs| ==> CarOk(cs[q], trackLength)
    ensures var swept := Sweep(its, cs, 0, dt, k, trackLength).1;
      && AllRacing(swept, trackLength) && AllDone(swept) == AllDone(cs)
      && forall q :: 0 <= q < |cs| ==> Swept(cs[q], swept[q])
  {
    var swept := Sweep(its, cs, 0, dt, k, trackLength).1;
    SweepKeepsRacers(its, cs, 0, dt, k, trackLength);
    forall q | 0 <= q < |cs|
      ensures Racing(swept[q], trackLength) && Swept(cs[q], swept[q])
    {
      assert CarOk(cs[q], trackLength);
    }
  }

  /** Racers with the same turbo state and stats have the same speed cap for the same draw. */
  lemma SweptSameTop(before: Car, after: Car, roll: nat)
    requires Swept(before, after)
    ensures TickTop(after, Roll(after, roll)) == TickTop(before, Roll(before, roll))
  {
  }

  /**
   * One unpaused tick of `update` on the racers: the item sweep, the turns
   * of every racer in list order, then the lap wrap of `get_new_lap`.
   */
  function Tick(cs: seq<Car>, its: seq<Item>, segs: seq<Segment>, dt: real, k: real, isTitle: bool,
                rolls: seq<nat>, picks: seq<nat>, jitters: seq<int>, trackLength: real): (r: seq<Car>)
    requires |rolls| == |cs| && |picks| == |cs| && |jitters| == |cs|
    requires forall q :: 0 <= q < |jitters| ==> 99 <= jitters[q] <= 101
    requires |segs| > 0 && dt >= 0.0 && k >= 1.0 && trackLength > 0.0
    requires forall q :: 0 <= q < |cs| ==> CarOk(cs[q], trackLength)
    requires AllReady(Sweep(its, cs, 0, dt, k, trackLength).1)
    ensures |r| == |cs|
  {
    var swept := Sweep(its, cs, 0, dt, k, trackLength).1;
    SweepKeepsRacing(its, cs, dt, k, trackLength);
    var moved := Turns(swept, |swept|, segs, rolls, picks, jitters, dt, k, trackLength);
    NewLaps(moved, false, isTitle, trackLength)
  }

  /** `get_new_lap` on every racer. */
  function NewLaps(cs: seq<Car>, first: bool, isTitle: bool, trackLength: real): (r: seq<Car>)
    ensures |r| == |cs|
  {
    seq(|cs|, q requires 0 <= q < |cs| => NewLap(cs[q], first, isTitle, trackLength))
  }

  /**
   * What one tick promises every racer: back inside the lap with its stats,
   * on the same lap or (in a race) the next, no progress lost, on
   * [-2.5, 2.5] sideways, and no faster than 1.01 times `max_speed ·
   * max_speed_mod · (1 + 5 · speed_up)`, with the speed-up it had at the
   * start of the tick or the 0.6 of a mini-turbo burst in it.
   */
  predicate TickKept(cs: seq<Car>, r: seq<Car>, rolls: seq<nat>, isTitle: bool, trackLength: real)
    requires |r| == |cs| && |rolls| == |cs|
  {
    forall q :: 0 <= q < |cs| ==>
      && CarOk(r[q], trackLength) && r[q].stats == cs[q].stats
      && cs[q].motion.laps <= r[q].motion.laps <= cs[q].motion.laps + (if isTitle then 0 else 1)
      && (!isTitle ==> Progress(cs[q], trackLength) <= Progress(r[q], trackLength))
      && -2.5 <= r[q].motion.playerX <= 2.5
      && 0.0 <= r[q].motion.speed <= 1.01 * TickTop(cs[q], Roll(cs[q], rolls[q]))
  }

  /** After a tick every racer is back inside the lap. */
  lemma TickKeptOk(cs: seq<Car>, r: seq<Car>, rolls: seq<nat>, isTitle: bool, trackLength: real)
    requires |r| == |cs| && |rolls| == |cs| && TickKept(cs, r, rolls, isTitle, trackLength)
    ensures forall q :: 0 <= q < |r| ==> CarOk(r[q], trackLength)
  {
    forall q | 0 <= q < |r|
      ensures CarOk(r[q], trackLength)
    {
    }
  }

  /** Every tick keeps `TickKept`. */
  lemma TickBounds(cs: seq<Car>, its: seq<Item>, segs: seq<Segment>, dt: real, k: real, isTitle: bool,
                   rolls: seq<nat>, picks: seq<nat>, jitters: seq<int>, trackLength: real)
    requires |rolls| == |cs| && |picks| == |cs| && |jitters| == |cs|
    requires forall q :: 0 <= q < |jitters| ==> 99 <= jitters[q] <= 101
    requires |segs| > 0 && dt >= 0.0 && k >= 1.0 && trackLength > 0.0
    requires forall q :: 0 <= q < |cs| ==> CarOk(cs[q], trackLength)
    requires AllReady(Sweep(its, cs, 0, dt, k, trackLength).1)
    ensures TickKept(cs, Tick(cs, its, segs, dt, k, isTitle, rolls, picks, jitters, trackLength), rolls, isTitle, trackLength)
  {
    var swept := Sweep(its, cs, 0, dt, k, trackLength).1;
    SweepKeepsRacing(its, cs, dt, k, trackLength);
    TurnsKeep(swept, |swept|, segs, rolls, picks, jitters, dt, k, trackLength);
    var moved := Turns(swept, |swept|, segs, rolls, picks, jitters, dt, k, trackLength);
    var r := Tick(cs, its, segs, dt, k, isTitle, rolls, picks, jitters, trackLength);
    forall q | 0 <= q < |cs|
      ensures Racing(moved[q], trackLength) && Advanced(cs[q], moved[q], trackLength)
      ensures r[q] == NewLap(moved[q], false, isTitle, trackLength)
      ensures -2.5 <= r[q].motion.playerX <= 2.5
      ensures 0.0 <= r[q].motion.speed <= 1.01 * TickTop(cs[q], Roll(cs[q], rolls[q]))
    {
      assert Racing(moved[q], trackLength) && Swept(cs[q], swept[q]) && Advanced(swept[q], moved[q], trackLength);
      SweptSameTop(cs[q], swept[q], rolls[q]);
    }
    WrapKeepsRacers(cs, moved, r, isTitle, trackLength);
  }

  /**
   * A caster whose own Hama or Mudo is on is spared by every Hama and Mudo
   * from the frame after its cast: the fade at the end of `render` has made
   * its cast mask visible.
   */
  lemma FadeSparesCaster(cs: seq<Car>, k: real, exclude: int, casterPlace: int, hama: bool)
    requires |cs| > 0 && k >= 1.0
    requires (cs[0].masks.hamaCast && cs[0].masks.hamaCastAlpha >= 0.0) || (cs[0].masks.mudoCast && cs[0].masks.mudoCastAlpha >= 0.0)
    ensures var faded := cs[0 := cs[0].(masks := CastFade(cs[0].masks, k))];
      Spell(faded, exclude, casterPlace, hama)[0] == faded[0]
  {
  }

  class RaceState {
    const cars: array<Car>
    var segments: seq<Segment>
    var items: seq<Item>
    var trackLength: int
    var pause: bool

    /**
     * The race invariant: segment i spans [i·L, (i+1)·L), the track length
     * is the segment count times L, every racer is listed in exactly the
     * segment its position looks up, and racers and items are well formed.
     */
    ghost predicate Valid()
      reads this, cars
    {
      && 2 <= |segments| && Shaped(segments)
      && trackLength == |segments| * SegmentLength
      && Occupancy(segments, Positions(cars[..]))
      && (forall i :: 0 <= i < cars.Length ==> CarOk(cars[i], trackLength as real))
      && (forall i :: 0 <= i < |items| ==> ItemOk(items[i], trackLength as real))
    }

    // -------------------------------------------------------------- building

    /**
     * `reset`: build the race for the given course and racers, then start
     * every racer's first lap. `outer[i]` and `inner[i]` are the curve draws
     * for geometry symbol i (true for hard), the second only used by
     * s-curves. The opening `get_new_lap(True)` leaves `is_title` at its
     * default, false.
     */
    constructor (geometry: seq<int>, outer: seq<bool>, inner: seq<bool>, cos: real -> real,
                 isTitle: bool, racers: seq<Car>)
      requires |geometry| == 8 && |outer| == 8 && |inner| == 8
      requires forall i :: 0 <= i < 8 ==> 0 <= geometry[i] <= 3
      requires forall i :: 0 <= i < |racers| ==>
        && 0.0 <= racers[i].motion.position < 108000.0 && racers[i].motion.laps >= 0
        && racers[i].motion.speed >= 0.0 && racers[i].stats.maxSpeedMod != 0.0
      ensures Valid() && fresh(cars) && !pause
      ensures |segments| == TotalLength(geometry) && Flat(segments)
      ensures segments[0].band == Finish && segments[1].band == Start
      ensures forall i :: 2 <= i < |segments| ==> segments[i].band == BandOf(i)
      ensures items == if isTitle then [] else Pickups(trackLength)
      ensures cars.Length == |racers|
      ensures forall i :: 0 <= i < |racers| ==> cars[i] == NewLap(racers[i], true, false, trackLength as real)
      ensures forall i :: 0 <= i < |racers| ==>
        cars[i].motion.position == racers[i].motion.position && cars[i].motion.laps == racers[i].motion.laps + 1
    {
      cars := new Car[|racers|](i requires 0 <= i < |racers| => racers[i]);
      segments := [];
      items := [];
      trackLength := 0;
      pause := false;
      new;
      ResetRoad(geometry, outer, inner, cos, isTitle);
      GetNewLap(true, false);
      FirstLapValid(racers, false);
    }

    /** After the first `get_new_lap` every racer is still on the track and on lap 1 or later. */
    lemma FirstLapValid(racers: seq<Car>, isTitle: bool)
      requires 2 <= |segments| && Shaped(segments) && trackLength == |segments| * SegmentLength
      requires |segments| >= 720
      requires Occupancy(segments, Positions(cars[..]))
      requires forall i :: 0 <= i < |items| ==> ItemOk(items[i], trackLength as real)
      requires cars.Length == |racers|
      requires forall i :: 0 <= i < |racers| ==>
        && 0.0 <= racers[i].motion.position < 108000.0 && racers[i].motion.laps >= 0
        && racers[i].motion.speed >= 0.0 && racers[i].stats.maxSpeedMod != 0.0
      requires forall i :: 0 <= i < |racers| ==> cars[i] == NewLap(racers[i], true, isTitle, trackLength as real)
      ensures Valid()
      ensures forall i :: 0 <= i < |racers| ==>
        cars[i].motion.position == racers[i].motion.position && cars[i].motion.laps == racers[i].motion.laps + 1
    {
    }

    /**
     * `reset_road`: build the road from the course geometry, lay the
     * pickups (not on the title screen), list the racers on their segments
     * and recolour segments 0 and 1 as finish and start.
     */
    method ResetRoad(geometry: seq<int>, outer: seq<bool>, inner: seq<bool>, cos: real -> real, isTitle: bool)
      requires |geometry| == 8 && |outer| == 8 && |inner| == 8
      requires forall i :: 0 <= i < 8 ==> 0 <= geometry[i] <= 3
      modifies this
      ensures |segments| == TotalLength(geometry) && 720 <= |segments| && Shaped(segments) && Flat(segments)
      ensures trackLength == |segments| * SegmentLength
      ensures segments[0].band == Finish && segments[1].band == Start
      ensures forall i :: 2 <= i < |segments| ==> segments[i].band == BandOf(i)
      ensures items == if isTitle then [] else Pickups(trackLength)
      ensures forall i :: 0 <= i < |items| ==> ItemOk(items[i], trackLength as real)
      ensures Occupancy(segments, Positions(cars[..]))
      ensures pause == old(pause)
    {
      BuildRoad(geometry, outer, inner, cos);
      TotalLengthBounds(geometry);
      trackLength := |segments| * SegmentLength;
      items := [];
      if !isTitle {
        items := Pickups(trackLength);
      }
      ResetCars();
      MarkLine();
    }

    /** The last two statements of `reset_road`: segment 0 shows the finish colours and segment 1 the start colours. */
    method MarkLine()
      requires 2 <= |segments| && Occupancy(segments, Positions(cars[..]))
      modifies this
      ensures |segments| == |old(segments)| && Occupancy(segments, Positions(cars[..]))
      ensures segments[0] == old(segments)[0].(band := Finish) && segments[1] == old(segments)[1].(band := Start)
      ensures forall i :: 2 <= i < |segments| ==> segments[i] == old(segments)[i]
      ensures items == old(items) && trackLength == old(trackLength) && pause == old(pause)
    {
      RecolourKeepsOccupancy(segments, Positions(cars[..]), 0, Finish);
      segments := segments[0 := segments[0].(band := Finish)];
      RecolourKeepsOccupancy(segments, Positions(cars[..]), 1, Start);
      segments := segments[1 := segments[1].(band := Start)];
    }

    /** `add_segment`: append segment n, starting where the road ends. */
    method AddSegment(curve: real, y: real)
      modifies this
      ensures segments == old(segments) + [NewSegment(|old(segments)|, LastY(old(segments)), curve, y)]
      ensures items == old(items) && trackLength == old(trackLength) && pause == old(pause)
    {
      segments := segments + [NewSegment(|segments|, LastY(segments), curve, y)];
    }

    /**
     * `add_road`: `enter` eased-in, `hold` constant and `leave` eased-out
     * segments of the given curve, rising y segment lengths overall. The
     * source's three consecutive loops compute each segment's curve by the
     * phase it falls in (`RoadCurve`) and its end elevation by the cosine
     * ease; here those values are listed first, then laid, and returned so
     * that callers can reason about what was laid.
     */
    method AddRoad(enter: nat, hold: nat, leave: nat, curve: real, y: int, cos: real -> real)
        returns (curves: seq<real>, ys: seq<real>)
      modifies this
      ensures curves == StretchCurves(enter, hold, leave, curve, cos)
      ensures ys == StretchYs(LastY(old(segments)), LastY(old(segments)) + (y * SegmentLength) as real, enter + hold + leave, cos)
      ensures |curves| == |ys| && segments == Laid(old(segments), curves, ys, |curves|)
      ensures items == old(items) && trackLength == old(trackLength) && pause == old(pause)
    {
      var startY := LastY(segments);
      curves := StretchCurves(enter, hold, leave, curve, cos);
      ys := StretchYs(startY, startY + (y * SegmentLength) as real, enter + hold + leave, cos);
      Lay(curves, ys);
    }

    /** Append one segment per curve and end elevation, each with `add_segment`. */
    method Lay(curves: seq<real>, ys: seq<real>)
      requires |curves| == |ys|
      modifies this
      ensures segments == Laid(old(segments), curves, ys, |curves|)
      ensures items == old(items) && trackLength == old(trackLength) && pause == old(pause)
    {
      for m := 0 to |curves|
        invariant segments == Laid(old(segments), curves, ys, m)
        invariant items == old(items) && trackLength == old(trackLength) && pause == old(pause)
      {
        AddSegment(curves[m], ys[m]);
      }
    }

    /**
     * `reset_road`'s loop: a straight for symbol 0, an s-curve pair for 1,
     * a left curve for 2 and a right curve for 3, each stretch 30+30+30.
     */
    method BuildRoad(geometry: seq<int>, outer: seq<bool>, inner: seq<bool>, cos: real -> real)
      requires |outer| == |geometry| && |inner| == |geometry|
      modifies this
      ensures |segments| == TotalLength(geometry) && Shaped(segments) && Flat(segments)
      ensures forall i :: 0 <= i < |segments| ==> segments[i].cars == [] && segments[i].band == BandOf(i)
      ensures items == old(items) && pause == old(pause)
    {
      segments := [];
      for i := 0 to |geometry|
        invariant |segments| == TotalLength(geometry[..i]) && Shaped(segments) && Flat(segments)
        invariant forall s :: 0 <= s < |segments| ==> segments[s].cars == [] && segments[s].band == BandOf(s)
        invariant items == old(items) && pause == old(pause)
      {
        var curve := if outer[i] then CurveHard else CurveMedium;
        if geometry[i] == 0 {
          Stretch(0.0, cos);
        } else if geometry[i] == 1 {
          var sCurve := if inner[i] then CurveHard else CurveMedium;
          Stretch(-sCurve, cos);
          Stretch(sCurve, cos);
        } else if geometry[i] == 2 {
          Stretch(-curve, cos);
        } else if geometry[i] == 3 {
          Stretch(curve, cos);
        }
        assert geometry[..i + 1][..i] == geometry[..i];
      }
      assert geometry[..|geometry|] == geometry;
    }

    /** One 30+30+30 stretch on a flat road, with what it keeps of the road built so far. */
    method Stretch(curve: real, cos: real -> real)
      requires Shaped(segments) && Flat(segments)
      requires forall s :: 0 <= s < |segments| ==> segments[s].cars == [] && segments[s].band == BandOf(s)
      modifies this
      ensures |segments| == |old(segments)| + 90 && Shaped(segments) && Flat(segments)
      ensures forall s :: 0 <= s < |segments| ==> segments[s].cars == [] && segments[s].band == BandOf(s)
      ensures items == old(items) && pause == old(pause)
    {
      ghost var before := segments;
      var curves, ys := AddRoad(30, 30, 30, curve, 0, cos);
      assert LastY(before) == 0.0;
      LaidShaped(before, curves, ys, 90);
      StretchYsFlat(90, cos);
      LaidFlat(before, curves, ys, 90);
      LaidBands(before, curves, ys, 90);
    }

    /** `reset_cars`: list every racer on the segment its position looks up. */
    method ResetCars()
      requires |segments| > 0 && forall s :: 0 <= s < |segments| ==> segments[s].cars == []
      modifies this
      ensures Occupancy(segments, Positions(cars[..]))
      ensures |segments| == |old(segments)|
      ensures forall s :: 0 <= s < |segments| ==> segments[s].(cars := []) == old(segments)[s]
      ensures items == old(items) && trackLength == old(trackLength) && pause == old(pause)
    {
      NoRacersListed(segments);
      for n := 0 to cars.Length
        invariant Occupancy(segments, Positions(cars[..])[..n])
        invariant |segments| == |old(segments)|
        invariant forall s :: 0 <= s < |segments| ==> segments[s].(cars := []) == old(segments)[s]
        invariant items == old(items) && trackLength == old(trackLength) && pause == old(pause)
      {
        var z := cars[n].motion.position;
        AppendKeepsOccupancy(segments, Positions(cars[..])[..n], z);
        assert Positions(cars[..])[..n] + [z] == Positions(cars[..])[..n + 1];
        var t := SegIdx(z, |segments|);
        segments := segments[t := segments[t].(cars := segments[t].cars + [n])];
      }
      assert Positions(cars[..])[..cars.Length] == Positions(cars[..]);
    }

    // -------------------------------------------------------------- laps and places

    /** `get_new_lap`: every racer past the line wraps back and, in a race, starts a new lap. */
    method GetNewLap(first: bool, isTitle: bool)
      requires 0 < |segments| && trackLength == |segments| * SegmentLength
      requires Occupancy(segments, Positions(cars[..]))
      modifies cars
      ensures Occupancy(segments, Positions(cars[..]))
      ensures forall p :: 0 <= p < cars.Length ==> cars[p] == NewLap(old(cars[p]), first, isTitle, trackLength as real)
      ensures cars[..] == NewLaps(old(cars[..]), first, isTitle, trackLength as real)
    {
      var tl := trackLength as real;
      assert tl == (|segments| as real) * L;
      for p := 0 to cars.Length
        invariant Occupancy(segments, Positions(cars[..]))
        invariant forall q :: 0 <= q < p ==> cars[q] == NewLap(old(cars[q]), first, isTitle, tl)
        invariant forall q :: p <= q < cars.Length ==> cars[q] == old(cars[q])
      {
        var c := NewLap(cars[p], first, isTitle, tl);
        if cars[p].motion.position >= tl {
          OccupancyLapBack(segments, Positions(cars[..]), p);
        }
        assert Positions(cars[..][p := c]) == Positions(cars[..])[p := c.motion.position];
        cars[p] := c;
      }
    }

    /**
     * `update_places`: sort the racers by key, ascending and stable, and
     * give the last of that order place 1; the key is read before any place
     * is written, so a finisher's bonus uses its previous place.
     */
    method UpdatePlaces()
      requires trackLength > 0
      modifies cars
      ensures forall i :: 0 <= i < cars.Length ==>
        cars[i] == old(cars[i]).(held := old(cars[i]).held.(place := Place(Keys(old(cars[..]), trackLength as real), i)))
    {
      var keys := Keys(cars[..], trackLength as real);
      for i := 0 to cars.Length
        invariant forall q :: 0 <= q < i ==> cars[q] == old(cars[q]).(held := old(cars[q]).held.(place := Place(keys, q)))
        invariant forall q :: i <= q < cars.Length ==> cars[q] == old(cars[q])
      {
        cars[i] := cars[i].(held := cars[i].held.(place := Place(keys, i)));
      }
    }

    // -------------------------------------------------------------- items

    /**
     * `update_items`: each item in list order hits the racers it reaches,
     * moves, and is removed (by value, with `list.remove`) when its life runs
     * out; the loop index still advances, so the next item is skipped.
     */
    method UpdateItems(dt: real, k: real)
      requires trackLength > 0
      requires forall i :: 0 <= i < |items| ==> ItemOk(items[i], trackLength as real)
      modifies this, cars
      ensures segments == old(segments) && trackLength == old(trackLength) && pause == old(pause)
      ensures (items, cars[..]) == Sweep(old(items), old(cars[..]), 0, dt, k, trackLength as real)
    {
      var tl := trackLength as real;
      var j := 0;
      while j < |items|
        invariant Sweep(items, cars[..], j, dt, k, tl) == Sweep(old(items), old(cars[..]), 0, dt, k, tl)
        invariant forall i :: 0 <= i < |items| ==> ItemOk(items[i], tl)
        invariant segments == old(segments) && trackLength == old(trackLength) && pause == old(pause)
        decreases |items| - j
      {
        var it := items[j];
        HitRacers(it, dt);
        var m := MoveItem(it, dt, k, tl);
        if Expired(m) {
          ghost var rest := items[..j] + items[j + 1..];
          assert forall i :: 0 <= i < j ==> !Expired(items[i]);
          items := items[j := m];
          RemoveFirstAt(items, j);
          assert items[..j] + items[j + 1..] == rest;
          items := RemoveFirst(items, m);
        } else {
          items := items[j := m];
        }
        j := j + 1;
      }
    }

    // -------------------------------------------------------------- intents and skills

    /**
     * `get_cpu_inputs`: every racer after the first, in order, picks its
     * intents on the segment it is on and, in control, holding a skill and
     * with its 2% roll `uses[i]` up, casts it. `signs[i][p]` is the side
     * racer i's Zio pushes racer p to.
     */
    method CpuInputs(k: real, uses: seq<bool>, signs: seq<seq<bool>>)
      requires Valid()
      requires |uses| == cars.Length && |signs| == cars.Length
      requires forall i :: 0 <= i < |signs| ==> |signs[i]| == cars.Length
      modifies this, cars
      ensures Valid()
      ensures segments == old(segments) && trackLength == old(trackLength) && pause == old(pause)
      ensures (cars[..], items) == CpuPass(old(cars[..]), old(items), segments, k, uses, signs, cars.Length)
    {
      if cars.Length > 1 {
        for i := 1 to cars.Length
          invariant 0 < |segments| && (cars[..], items) == CpuPass(old(cars[..]), old(items), segments, k, uses, signs, i)
          invariant segments == old(segments) && trackLength == old(trackLength) && pause == old(pause)
        {
          var c := CpuIntent(cars[i], segments[SegIdx(cars[i].motion.position, |segments|)].curve, k);
          var inControl := InControl(cars[i]);
          cars[i] := c;
          if inControl && uses[i] && CanUseSkill(c) {
            UseSkill(i, i, i, false, signs[i]);
          }
        }
      }
      CpuPassKeeps(old(cars[..]), old(items), segments, k, uses, signs, cars.Length, trackLength as real);
      assert Positions(cars[..]) == Positions(old(cars[..]));
    }

    /** The human's steering and throttle from the keys held this tick (`get_inputs`). */
    method HumanInputs(left: bool, right: bool, accel: bool, k: real)
      requires Valid() && cars.Length > 0
      modifies cars
      ensures Valid()
      ensures cars[..] == old(cars[..])[0 := HumanIntent(old(cars[0]), pause, left, right, accel, k)]
    {
      cars[0] := HumanIntent(cars[0], pause, left, right, accel, k);
      assert Positions(cars[..]) == Positions(old(cars[..]));
    }

    /**
     * The end of `render` (main.py:1404-1424), which is not only drawing:
     * racer 0's own Hama and Mudo masks brighten by 5·k while cast, switch
     * off at 512 and then fade, and while visible they spare racer 0 from
     * Hama and Mudo.
     */
    method FadeCastMasks(k: real)
      requires Valid() && cars.Length > 0 && k >= 1.0
      modifies cars
      ensures Valid()
      ensures cars[..] == old(cars[..])[0 := old(cars[0]).(masks := CastFade(old(cars[0]).masks, k))]
    {
      cars[0] := cars[0].(masks := CastFade(cars[0].masks, k));
      assert Positions(cars[..]) == Positions(old(cars[..]));
    }

    /**
     * The human presses the skill key (`get_inputs`): unpaused, in control
     * and holding a skill whose roulette has stopped, racer 0 casts it as
     * owner of its projectiles, skipping itself.
     */
    method HumanUseSkill(signs: seq<bool>)
      requires Valid() && cars.Length > 0 && |signs| == cars.Length
      modifies this, cars
      ensures Valid()
      ensures segments == old(segments) && trackLength == old(trackLength) && pause == old(pause)
      ensures !old(pause) && InControl(old(cars[0])) && CanUseSkill(old(cars[0])) ==>
        (cars[..], items) == Cast(old(cars[..]), old(items), 0, 0, 0, true, signs)
      ensures !(!old(pause) && InControl(old(cars[0])) && CanUseSkill(old(cars[0]))) ==>
        cars[..] == old(cars[..]) && items == old(items)
    {
      if !pause && InControl(cars[0]) && CanUseSkill(cars[0]) {
        UseSkill(0, 0, 0, true, signs);
        CastOnlyAhead(old(cars[..]), old(items), 0, 0, 0, true, signs);
        CastKeepsItems(old(cars[..]), old(items), 0, 0, 0, true, signs, trackLength as real);
        assert Positions(cars[..]) == Positions(old(cars[..]));
      }
    }

    /**
     * The gamepad's skill button (`get_inputs`), as written: the same cast as
     * `HumanUseSkill` but with the joystick's index `joy` as owner of the
     * projectile and as the index the spells skip.
     */
    method PadUseSkill(joy: int, signs: seq<bool>)
      requires cars.Length > 0 && |signs| == cars.Length
      modifies this, cars
      ensures segments == old(segments) && trackLength == old(trackLength) && pause == old(pause)
      ensures !old(pause) && InControl(old(cars[0])) && CanUseSkill(old(cars[0])) ==>
        (cars[..], items) == Cast(old(cars[..]), old(items), 0, joy, joy, true, signs)
      ensures !(!old(pause) && InControl(old(cars[0])) && CanUseSkill(old(cars[0]))) ==>
        cars[..] == old(cars[..]) && items == old(items)
    {
      if !pause && InControl(cars[0]) && CanUseSkill(cars[0]) {
        UseSkill(0, joy, joy, true, signs);
      }
    }

    /**
     * The skill branch shared by `get_cpu_inputs` and `get_inputs`: racer i
     * spends the skill it holds, as `Cast` describes.
     */
    method UseSkill(i: nat, owner: int, exclude: int, human: bool, signs: seq<bool>)
      requires i < cars.Length && CanUseSkill(cars[i]) && |signs| == cars.Length
      modifies this, cars
      ensures segments == old(segments) && trackLength == old(trackLength) && pause == old(pause)
      ensures (cars[..], items) == Cast(old(cars[..]), old(items), i, owner, exclude, human, signs)
    {
      var c := cars[i];
      var s := c.held.item.value;
      var spent := c.held.(item := None);
      if s == 1 || s == 2 {
        items := items + [Launch(c, s, owner)];
        cars[i] := c.(held := spent);
      } else if s == 3 {
        cars[i] := Driver.Garu(c).(held := spent);
      } else if s == 4 {
        Zap(i, exclude, signs);
        cars[i] := c.(held := spent);
      } else if s == 5 {
        Curse(i, exclude, true);
        cars[i] := c.(held := spent, masks := c.masks.(hamaCast := c.masks.hamaCast || human));
      } else if s == 6 {
        Curse(i, exclude, false);
        cars[i] := c.(held := spent, masks := c.masks.(mudoCast := c.masks.mudoCast || human));
      } else if s == 7 {
        cars[i] := c.(status := c.status.(attack := 90.0), held := spent);
      }
    }

    /** The Zio loop: every racer Zio reaches from racer i's place is hit. */
    method Zap(i: nat, exclude: int, signs: seq<bool>)
      requires i < cars.Length && |signs| == cars.Length
      modifies cars
      ensures cars[..] == ZioAll(old(cars[..]), exclude, old(cars[i]).held.place, signs)
    {
      for p := 0 to cars.Length
        invariant cars[i].held == old(cars[i]).held
        invariant forall q :: 0 <= q < p ==> cars[q] == ZioAll(old(cars[..]), exclude, old(cars[i]).held.place, signs)[q]
        invariant forall q :: p <= q < cars.Length ==> cars[q] == old(cars[q])
      {
        if ZioReaches(cars[p], p, exclude, cars[i].held.place) {
          cars[p] := ZioHit(cars[p], signs[p]);
        }
      }
    }

    /** The Hama (`hama` true) or Mudo loop: every racer the spell reaches from racer i's place is masked. */
    method Curse(i: nat, exclude: int, hama: bool)
      requires i < cars.Length
      modifies cars
      ensures cars[..] == Spell(old(cars[..]), exclude, old(cars[i]).held.place, hama)
    {
      for p := 0 to cars.Length
        invariant cars[i].held == old(cars[i]).held
        invariant forall q :: 0 <= q < p ==> cars[q] == Spell(old(cars[..]), exclude, old(cars[i]).held.place, hama)[q]
        invariant forall q :: p <= q < cars.Length ==> cars[q] == old(cars[q])
      {
        if SpellReaches(cars[p], p, exclude, cars[i].held.place) {
          cars[p] := if hama then cars[p].(masks := cars[p].masks.(hama := true))
                     else cars[p].(masks := cars[p].masks.(mudo := true));
        }
      }
    }

    // -------------------------------------------------------------- the tick

    /**
     * `update`: when not paused, the items sweep first; then each racer in
     * list order reads the leader's progress, takes its own step (attacking
     * the others on the way) and is moved to its new segment; finally every
     * racer past the line wraps. The racers end as `Tick` describes. It
     * reports whether every racer had already run all its laps at the start
     * of the tick; a paused race reports false and changes nothing.
     * `Roll(c, rolls[p])`, `Pick(c, picks[p])` and `jitters[p]` are racer p's
     * draws of `randint(0, hasBoosted + 1)`, `random.choice(item_choice)` and
     * `randint(99, 101)`. A racer whose roulette a pickup starts needs a
     * non-empty skill table, or `random.choice` raises.
     */
    method Update(dt: real, k: real, isTitle: bool, rolls: seq<nat>, picks: seq<nat>, jitters: seq<int>)
        returns (isDone: bool)
      requires Valid() && dt >= 0.0 && k >= 1.0
      requires |rolls| == cars.Length && |picks| == cars.Length && |jitters| == cars.Length
      requires forall p :: 0 <= p < |jitters| ==> 99 <= jitters[p] <= 101
      requires !pause ==> AllReady(Sweep(items, cars[..], 0, dt, k, trackLength as real).1)
      modifies this, cars
      ensures Valid()
      ensures trackLength == old(trackLength) && pause == old(pause) && |segments| == |old(segments)|
      ensures old(pause) ==> !isDone && cars[..] == old(cars[..]) && segments == old(segments) && items == old(items)
      ensures !old(pause) ==> (isDone <==> AllDone(old(cars[..])))
      ensures !old(pause) ==> items == Sweep(old(items), old(cars[..]), 0, dt, k, trackLength as real).0
      ensures !old(pause) ==>
        cars[..] == Tick(old(cars[..]), old(items), old(segments), dt, k, isTitle, rolls, picks, jitters, trackLength as real)
      ensures !old(pause) ==> TickKept(old(cars[..]), cars[..], rolls, isTitle, trackLength as real)
    {
      if pause {
        return false;
      }
      var tl := trackLength as real;
      ghost var segs := segments;
      UpdateItems(dt, k);
      SweepKeepsRacing(old(items), old(cars[..]), dt, k, tl);
      SweepKeepsItems(old(items), old(cars[..]), 0, dt, k, tl);
      assert Positions(cars[..]) == Positions(old(cars[..]));
      isDone := TurnAll(dt, k, rolls, picks, jitters);
      GetNewLap(false, isTitle);
      assert cars[..] == Tick(old(cars[..]), old(items), segs, dt, k, isTitle, rolls, picks, jitters, tl);
      TickBounds(old(cars[..]), old(items), segs, dt, k, isTitle, rolls, picks, jitters, tl);
      TickKeptOk(old(cars[..]), cars[..], rolls, isTitle, tl);
      forall i | 0 <= i < cars.Length
        ensures CarOk(cars[i], tl)
      {
        assert cars[i] == cars[..][i];
      }
    }

    /**
     * The loop of `update` over the racers: each in list order reads the
     * leader's progress and takes its turn, so the racers end as `Turns`
     * describes; the result is whether every racer has run all its laps.
     */
    method TurnAll(dt: real, k: real, rolls: seq<nat>, picks: seq<nat>, jitters: seq<int>) returns (isDone: bool)
      requires 2 <= |segments| && Shaped(segments) && trackLength >= 0
      requires Occupancy(segments, Positions(cars[..]))
      requires AllRacing(cars[..], trackLength as real)
      requires AllReady(cars[..])
      requires dt >= 0.0 && k >= 1.0
      requires |rolls| == cars.Length && |picks| == cars.Length && |jitters| == cars.Length
      requires forall p :: 0 <= p < |jitters| ==> 99 <= jitters[p] <= 101
      modifies this, cars
      ensures 2 <= |segments| && Shaped(segments) && |segments| == |old(segments)|
      ensures items == old(items) && trackLength == old(trackLength) && pause == old(pause)
      ensures Occupancy(segments, Positions(cars[..]))
      ensures cars[..] == Turns(old(cars[..]), cars.Length, old(segments), rolls, picks, jitters, dt, k, trackLength as real)
      ensures isDone <==> AllDone(old(cars[..]))
    {
      var tl := trackLength as real;
      isDone := true;
      for p := 0 to cars.Length
        invariant 2 <= |segments| && Shaped(segments) && SameRoad(segments, old(segments))
        invariant items == old(items) && trackLength == old(trackLength) && pause == old(pause)
        invariant Occupancy(segments, Positions(cars[..]))
        invariant cars[..] == Turns(old(cars[..]), p, old(segments), rolls, picks, jitters, dt, k, tl)
        invariant isDone <==> p == 0 || AllDone(old(cars[..]))
      {
        var allDone := TakeTurn(p, dt, k, rolls, picks, jitters, old(cars[..]), old(segments));
        isDone := isDone && allDone;
      }
    }

    /**
     * One pass of `update`'s loop, for racer p, after the turns of the
     * racers before it in the list: it reads the leader's progress and
     * whether everybody is done, then takes its turn with its own draws, on
     * a road with the same curves as the one the loop started on.
     */
    method TakeTurn(p: nat, dt: real, k: real, rolls: seq<nat>, picks: seq<nat>, jitters: seq<int>,
                    ghost start: seq<Car>, ghost road: seq<Segment>)
        returns (allDone: bool)
      requires p < cars.Length && 2 <= |segments| && Shaped(segments) && SameRoad(segments, road)
      requires trackLength >= 0 && Occupancy(segments, Positions(cars[..]))
      requires dt >= 0.0 && k >= 1.0 && |start| == cars.Length
      requires |rolls| == cars.Length && |picks| == cars.Length && |jitters| == cars.Length
      requires forall q :: 0 <= q < |jitters| ==> 99 <= jitters[q] <= 101
      requires AllRacing(start, trackLength as real) && AllReady(start)
      requires cars[..] == Turns(start, p, road, rolls, picks, jitters, dt, k, trackLength as real)
      modifies this, cars
      ensures items == old(items) && trackLength == old(trackLength) && pause == old(pause)
      ensures cars[..] == Turns(start, p + 1, road, rolls, picks, jitters, dt, k, trackLength as real)
      ensures allDone <==> AllDone(start)
      ensures 2 <= |segments| && Shaped(segments) && SameRoad(segments, road) && |segments| == |old(segments)|
      ensures Occupancy(segments, Positions(cars[..]))
    {
      var tl := trackLength as real;
      ghost var prev := cars[..];
      assert AllRacing(prev, tl) && AllReady(prev) && AllDone(prev) == AllDone(start);
      var firstPos;
      firstPos, allDone := Scan(p);
      LeaderAhead(cars[..], p, tl);
      var c := cars[p];
      assert c == prev[p] && Racing(c, tl) && ChoiceReady(c);
      var roll, pick := Roll(c, rolls[p]), Pick(c, picks[p]);
      ghost var segs := segments;
      Turn(p, firstPos, roll, pick, jitters[p], dt, k);
      TurnAtSameRoad(prev, cars[..], p, segs, road, rolls, picks, jitters, dt, k, tl);
      assert Turns(start, p + 1, road, rolls, picks, jitters, dt, k, tl) == TurnAt(prev, p, road, rolls, picks, jitters, dt, k, tl);
      SameRoadTrans(segments, segs, road);
    }

    /**
     * The inner loop of `update` for racer p: the progress of the last other
     * racer, in list order, holding place 1 (0 when none does), and whether
     * every racer has run all its laps.
     */
    method Scan(p: nat) returns (firstPos: real, allDone: bool)
      ensures firstPos == FirstPos(cars[..], p, trackLength as real)
      ensures allDone <==> AllDone(cars[..])
    {
      firstPos, allDone := 0.0, true;
      for q := 0 to cars.Length
        invariant firstPos == FirstPosIn(cars[..], p, q, trackLength as real)
        invariant allDone <==> forall i :: 0 <= i < q ==> cars[i].motion.laps == MaxLaps
      {
        if p != q && cars[q].held.place == 1 {
          firstPos := cars[q].motion.position + ((cars[q].motion.laps - 1) as real) * (trackLength as real);
        }
        if cars[q].motion.laps != MaxLaps {
          allDone := false;
        }
      }
    }

    /**
     * Racer p's turn inside `update`: its own step, with its physical attack
     * (when its attack timer was running) striking the others after its
     * prelude, then `update_car` moving it from the segment it was listed on
     * to the one its new position looks up.
     */
    method Turn(p: nat, firstPos: real, roll: int, pick: nat, jitter: int, dt: real, k: real)
      requires p < cars.Length && 0 < |segments| && Occupancy(segments, Positions(cars[..]))
      requires 0 <= roll <= cars[p].status.hasBoosted + 1
      requires cars[p].motion.laps != MaxLaps && cars[p].held.itemScrolling > 0.0 ==> pick < |cars[p].stats.itemChoice|
      requires cars[p].stats.maxSpeedMod != 0.0 && firstPos != -1.0 && 99 <= jitter <= 101 && k >= 1.0
      modifies this, cars
      ensures cars[..] == TurnOf(old(cars[..]), p, firstPos, roll, pick, jitter, old(segments), dt, k, trackLength as real)
      ensures |segments| == |old(segments)| && SameRoad(segments, old(segments))
      ensures segments == MoveCar(old(segments), p, SegIdx(old(cars[p]).motion.position, |segments|),
                                  SegIdx(cars[p].motion.position, |segments|))
      ensures Occupancy(segments, Positions(cars[..]))
      ensures items == old(items) && trackLength == old(trackLength) && pause == old(pause)
    {
      var attacking := cars[p].status.attack > 0.0;
      var c := Prelude(cars[p], roll, dt, k);
      cars[p] := c;
      if attacking {
        AttackOthers(p, k);
        AttackOnlyHurts(old(cars[..])[p := c], p, k);
      }
      assert Positions(cars[..]) == Positions(old(cars[..]));
      Move(p, firstPos, pick, jitter, dt, k);
      TurnOfIs(old(cars[..]), cars[..], p, firstPos, roll, pick, jitter, old(segments), dt, k, trackLength as real);
    }

    /** The rest of racer p's turn after its attack: health, timers, motion and `update_car`. */
    method Move(p: nat, firstPos: real, pick: nat, jitter: int, dt: real, k: real)
      requires p < cars.Length && 0 < |segments| && Occupancy(segments, Positions(cars[..]))
      requires cars[p].held.itemScrolling > 0.0 ==> pick < |cars[p].stats.itemChoice|
      requires cars[p].stats.maxSpeedMod != 0.0 && firstPos != -1.0 && 99 <= jitter <= 101 && k >= 1.0
      modifies this, cars
      ensures cars[p] == Rest(old(cars[p]), pick, jitter, old(segments), firstPos, dt, k, trackLength as real)
      ensures forall q :: 0 <= q < cars.Length && q != p ==> cars[q] == old(cars[q])
      ensures |segments| == |old(segments)|
      ensures segments == MoveCar(old(segments), p, SegIdx(old(cars[p]).motion.position, |segments|),
                                  SegIdx(cars[p].motion.position, |segments|))
      ensures Occupancy(segments, Positions(cars[..]))
      ensures items == old(items) && trackLength == old(trackLength) && pause == old(pause)
    {
      var from := SegIdx(cars[p].motion.position, |segments|);
      var c := Rest(cars[p], pick, jitter, segments, firstPos, dt, k, trackLength as real);
      MoveKeepsOccupancy(segments, Positions(cars[..]), p, c.motion.position);
      segments := MoveCar(segments, p, from, SegIdx(c.motion.position, |segments|));
      assert Positions(cars[..][p := c]) == Positions(cars[..])[p := c.motion.position];
      cars[p] := c;
    }

    /** The loop over the other racers while racer p's attack timer runs. */
    method AttackOthers(p: nat, k: real)
      requires p < cars.Length && k >= 1.0
      modifies cars
      ensures cars[..] == Attack(old(cars[..]), p, k)
    {
      for q := 0 to cars.Length
        invariant cars[p] == old(cars[p])
        invariant forall i :: 0 <= i < q ==> cars[i] == Attack(old(cars[..]), p, k)[i]
        invariant forall i :: q <= i < cars.Length ==> cars[i] == old(cars[i])
      {
        if q != p && Strikes(cars[p], cars[q]) {
          cars[q] := Struck(cars[q], k);
        }
      }
    }

    /** The inner loop of `update_items`: the item against every racer in turn. */
    method HitRacers(it: Item, dt: real)
      requires trackLength > 0
      modifies cars
      ensures cars[..] == HitAll(old(cars[..]), it, dt, trackLength as real)
    {
      for i := 0 to cars.Length
        invariant forall q :: 0 <= q < i ==> cars[q] == HitAll(old(cars[..]), it, dt, trackLength as real)[q]
        invariant forall q :: i <= q < cars.Length ==> cars[q] == old(cars[q])
      {
        if Hits(it, cars[i], i, dt) {
          cars[i] := ApplyHit(cars[i], it, trackLength as real);
        }
      }
    }
  }
}
