/**
 * Items on the track (main.py `add_item`, `update_items`): mystery pickups,
 * fireballs and ice chunks, their collisions with racers, their motion along
 * the track and the expiry of projectiles. `update_items` removes an expired
 * projectile from the list it is iterating over, so the item after it is not
 * visited in that tick; `Sweep` models exactly that.
 */
module Items {
  import opened Arith
  import opened Wrappers
  import opened Player
  import opened Track

  const PickupNum: int := 0
  const FireNum: int := 8
  const IceNum: int := 9
  /** The owner every pickup carries; no racer has this index. */
  const PickupOwner: int := 1573
  /** The lifetime of a new projectile, in seconds. */
  const ProjectileLife: real := 10.0

  /** An item: kind, level, speed, owner and its `xzd` list (lateral x, distance z, lifetime d). */
  datatype Item = Item(num: int, level: real, speed: real, owner: int, x: real, z: real, d: real)

  /** `add_item`: a pickup ignores the speed, owner and level it is given. */
  function NewItem(num: int, z: real, x: real, speed: real, owner: int, level: real): (it: Item)
    ensures it.num == num && it.x == x && it.z == z
    ensures num == PickupNum ==> it.speed == 0.0 && it.owner == PickupOwner && it.level == 0.0 && it.d == 0.0
    ensures num != PickupNum ==> it.speed == speed && it.owner == owner && it.level == level && it.d == ProjectileLife
  {
    if num == PickupNum then Item(0, 0.0, 0.0, PickupOwner, x, z, 0.0)
    else Item(num, level, speed, owner, x, z, ProjectileLife)
  }

  /** One row of pickups at distance z, one per lateral offset in xs. */
  function PickupRow(z: real, xs: seq<real>): (r: seq<Item>)
    ensures |r| == |xs|
    ensures forall i :: 0 <= i < |xs| ==> r[i] == NewItem(PickupNum, z, xs[i], 0.0, 0, 0.0)
  {
    seq(|xs|, i requires 0 <= i < |xs| => NewItem(PickupNum, z, xs[i], 0.0, 0, 0.0))
  }

  /**
   * The 20 pickups `reset_road` lays outside the title screen: rows of five
   * at 1/16, 9/16, 6/16 and 12/16 of the track length (integer division).
   */
  function Pickups(trackLength: int): (s: seq<Item>)
    ensures |s| == 20
    ensures forall i :: 0 <= i < 20 ==> s[i].num == PickupNum && -0.8 <= s[i].x <= 0.8
    ensures trackLength > 0 ==> forall i :: 0 <= i < 20 ==> ItemOk(s[i], trackLength as real)
  {
    var lanes := [-0.8, 0.8, 0.0, -0.4, 0.4];
    var swapped := [-0.8, 0.8, 0.0, 0.4, -0.4];
    var r := PickupRow((trackLength / 16) as real, lanes) + PickupRow((trackLength * 9 / 16) as real, swapped)
      + PickupRow((trackLength * 6 / 16) as real, lanes) + PickupRow((trackLength * 12 / 16) as real, lanes);
    if trackLength > 0 then
      RowInside(trackLength, 1); RowInside(trackLength, 9); RowInside(trackLength, 6); RowInside(trackLength, 12);
      r
    else r
  }

  /** A row at n/16 of the track, n < 16, lies inside the lap. */
  lemma RowInside(trackLength: int, n: int)
    requires trackLength > 0 && 0 <= n < 16
    ensures 0 <= trackLength * n / 16 < trackLength
  {
    assert trackLength * n < trackLength * 16;
  }

  /** The shape every item on the track keeps between ticks. */
  predicate ItemOk(it: Item, trackLength: real)
  {
    && (it.num == PickupNum || it.num == FireNum || it.num == IceNum)
    && (it.num == PickupNum ==> it.speed == 0.0 && it.owner == PickupOwner && 0.0 <= it.z < trackLength)
    && (it.num != PickupNum ==> it.d > 0.0 && it.speed >= 0.0 && 0.0 <= it.z)
  }

  // ---------------------------------------------------------------- collisions

  /**
   * Racer i is hit by the item: not its owner, closer along the track than
   * the two travel apart in one step, within 0.48 laterally, still racing,
   * and on the ground.
   */
  predicate Hits(it: Item, c: Car, i: nat, dt: real)
  {
    && it.owner != i
    && Abs(c.motion.position - it.z) < Abs(dt * c.motion.speed - dt * it.speed)
    && Abs(c.motion.playerX - it.x) <= 0.48
    && c.motion.laps != MaxLaps
    && c.motion.playerY <= 0.0
  }

  function Abs(r: real): real { if r < 0.0 then -r else r }

  /**
   * What a hit does: a pickup starts the item roulette of a racer with no
   * item; a fireball or ice chunk hurts a racer that is not recovering.
   */
  function ApplyHit(c: Car, it: Item, trackLength: real): (r: Car)
    requires trackLength > 0.0
    ensures it.num == PickupNum ==>
      r == (if c.held.item.None? then c.(held := c.held.(itemScrolling := 2.5)) else c)
    ensures it.num != PickupNum && c.vitals.recover ==> r == c
    ensures it.num == FireNum && !c.vitals.recover ==>
      && r.motion == c.motion.(flying := true) && r.held == c.held && r.masks == c.masks
      && r.vitals == c.vitals.(health := c.vitals.health - 100)
      && r.status == c.status.(noControl := r.status.noControl)
      && r.status.noControl == c.status.noControl + it.level / 4.0 + Progress(c, trackLength) / trackLength * 0.6
    ensures it.num != PickupNum && it.num != FireNum && !c.vitals.recover ==>
      && r.motion == c.motion.(flying := true) && r.held == c.held && r.masks == c.masks
      && r.vitals == c.vitals.(health := c.vitals.health - 50)
      && r.status == c.status.(frozen := r.status.frozen)
      && r.status.frozen == it.level - 1.0 + Progress(c, trackLength) / trackLength * 0.8
  {
    if it.num == PickupNum then
      if c.held.item.None? then c.(held := c.held.(itemScrolling := 2.5)) else c
    else if c.vitals.recover then c
    else if it.num == FireNum then
      c.(motion := c.motion.(flying := true), vitals := c.vitals.(health := c.vitals.health - 100),
         status := c.status.(noControl := c.status.noControl + it.level / 4.0 + Progress(c, trackLength) / trackLength * 0.6))
    else
      c.(motion := c.motion.(flying := true), vitals := c.vitals.(health := c.vitals.health - 50),
         status := c.status.(frozen := it.level - 1.0 + Progress(c, trackLength) / trackLength * 0.8))
  }

  /** One item checked against every racer in turn (each check reads only that racer). */
  function HitAll(cs: seq<Car>, it: Item, dt: real, trackLength: real): (r: seq<Car>)
    requires trackLength > 0.0
    ensures |r| == |cs|
    ensures forall i :: 0 <= i < |cs| ==> r[i] == if Hits(it, cs[i], i, dt) then ApplyHit(cs[i], it, trackLength) else cs[i]
  {
    seq(|cs|, i requires 0 <= i < |cs| => if Hits(it, cs[i], i, dt) then ApplyHit(cs[i], it, trackLength) else cs[i])
  }

  /**
   * A hit never moves a racer sideways or along the track, never changes its
   * speed, lap, stats, held item or recovery, and never heals it.
   */
  lemma HitKeepsMotion(c: Car, it: Item, trackLength: real)
    requires trackLength > 0.0
    ensures var r := ApplyHit(c, it, trackLength);
      && r.motion.(flying := c.motion.flying) == c.motion
      && r.stats == c.stats && r.held.item == c.held.item && r.vitals.recover == c.vitals.recover
      && r.vitals.health <= c.vitals.health && r.status.hasBoosted == c.status.hasBoosted
      && r.status.speedUp == c.status.speedUp && r.status.boostDiff == c.status.boostDiff
  {
  }

  // ---------------------------------------------------------------- motion

  /**
   * One item's motion in one tick: it advances by dt·speed·k, clamped to the
   * track length, where it snaps to 0; projectiles also lose dt·k of life.
   */
  function MoveItem(it: Item, dt: real, k: real, trackLength: real): (r: Item)
    requires trackLength > 0.0
    ensures r.(z := it.z, d := it.d) == it
    ensures 0.0 <= r.z < trackLength
    ensures 0.0 <= it.z + dt * it.speed * k < trackLength ==> r.z == it.z + dt * it.speed * k
    ensures it.z + dt * it.speed * k >= trackLength ==> r.z == 0.0
    ensures r.d == if it.num != PickupNum then it.d - dt * k else it.d
  {
    var z := Increase(it.z, dt * it.speed * k, trackLength);
    var z' := if z >= trackLength then z - trackLength else z;
    it.(z := z', d := if it.num != PickupNum then it.d - dt * k else it.d)
  }

  /** A projectile whose life has run out; pickups never expire. */
  predicate Expired(it: Item)
  {
    it.num != PickupNum && it.d <= 0.0
  }

  /** A pickup stays where it is. */
  lemma PickupStays(it: Item, dt: real, k: real, trackLength: real)
    requires trackLength > 0.0 && ItemOk(it, trackLength) && it.num == PickupNum
    ensures MoveItem(it, dt, k, trackLength) == it && !Expired(MoveItem(it, dt, k, trackLength))
  {
  }

  /**
   * The `for item in self.items` loop from index j on: item j hits racers,
   * moves, and is removed when expired, after which the loop index still
   * advances by one.
   */
  function Sweep(s: seq<Item>, cs: seq<Car>, j: nat, dt: real, k: real, trackLength: real): (r: (seq<Item>, seq<Car>))
    requires trackLength > 0.0
    ensures |r.1| == |cs|
    decreases |s| - j
  {
    if j >= |s| then (s, cs)
    else
      var cs' := HitAll(cs, s[j], dt, trackLength);
      var m := MoveItem(s[j], dt, k, trackLength);
      if Expired(m) then Sweep(s[..j] + s[j + 1..], cs', j + 1, dt, k, trackLength)
      else Sweep(s[j := m], cs', j + 1, dt, k, trackLength)
  }

  /** The items before the loop index are never touched again. */
  lemma {:induction false} SweepKeepsPrefix(s: seq<Item>, cs: seq<Car>, j: nat, dt: real, k: real, trackLength: real)
    requires trackLength > 0.0 && j <= |s|
    ensures var r := Sweep(s, cs, j, dt, k, trackLength).0;
      j <= |r| && r[..j] == s[..j]
    decreases |s| - j
  {
    if j < |s| {
      var cs' := HitAll(cs, s[j], dt, trackLength);
      var m := MoveItem(s[j], dt, k, trackLength);
      if Expired(m) {
        var t := s[..j] + s[j + 1..];
        assert t[..j] == s[..j];
        if j + 1 <= |t| {
          SweepKeepsPrefix(t, cs', j + 1, dt, k, trackLength);
        }
      } else {
        SweepKeepsPrefix(s[j := m], cs', j + 1, dt, k, trackLength);
      }
    }
  }

  /**
   * The skip: when item j expires, the item after it moves into slot j and
   * leaves the tick exactly as it was, neither moved nor aged.
   */
  lemma SkipAfterRemoval(s: seq<Item>, cs: seq<Car>, j: nat, dt: real, k: real, trackLength: real)
    requires trackLength > 0.0 && j + 1 < |s|
    requires Expired(MoveItem(s[j], dt, k, trackLength))
    ensures var r := Sweep(s, cs, j, dt, k, trackLength).0;
      j < |r| && r[j] == s[j + 1]
  {
    var t := s[..j] + s[j + 1..];
    SweepKeepsPrefix(t, HitAll(cs, s[j], dt, trackLength), j + 1, dt, k, trackLength);
    assert t[..j + 1][j] == s[j + 1];
  }

  /**
   * What the sweep leaves on the track is well formed: pickups where they
   * were, projectiles with life left and every distance inside the lap.
   */
  lemma {:induction false} SweepKeepsItems(s: seq<Item>, cs: seq<Car>, j: nat, dt: real, k: real, trackLength: real)
    requires trackLength > 0.0 && dt >= 0.0 && k >= 1.0
    requires forall i :: 0 <= i < |s| ==> ItemOk(s[i], trackLength)
    ensures forall i :: 0 <= i < |Sweep(s, cs, j, dt, k, trackLength).0| ==>
      ItemOk(Sweep(s, cs, j, dt, k, trackLength).0[i], trackLength)
    decreases |s| - j
  {
    if j < |s| {
      var cs' := HitAll(cs, s[j], dt, trackLength);
      var m := MoveItem(s[j], dt, k, trackLength);
      if Expired(m) {
        var t := s[..j] + s[j + 1..];
        assert forall i :: 0 <= i < |t| ==> t[i] == if i < j then s[i] else s[i + 1];
        SweepKeepsItems(t, cs', j + 1, dt, k, trackLength);
      } else {
        assert ItemOk(m, trackLength);
        SweepKeepsItems(s[j := m], cs', j + 1, dt, k, trackLength);
      }
    }
  }

  /** Pickups are never removed: every pickup on the track is still there after the sweep. */
  lemma {:induction false} SweepKeepsPickups(s: seq<Item>, cs: seq<Car>, j: nat, dt: real, k: real, trackLength: real, p: Item)
    requires trackLength > 0.0
    requires forall i :: 0 <= i < |s| ==> ItemOk(s[i], trackLength)
    requires p in s && p.num == PickupNum
    ensures p in Sweep(s, cs, j, dt, k, trackLength).0
    decreases |s| - j
  {
    if j < |s| {
      var cs' := HitAll(cs, s[j], dt, trackLength);
      var m := MoveItem(s[j], dt, k, trackLength);
      if Expired(m) {
        var t := s[..j] + s[j + 1..];
        assert s[j].num != PickupNum;
        var i :| 0 <= i < |s| && s[i] == p;
        assert i != j;
        assert p == (if i < j then t[i] else t[i - 1]);
        assert forall i :: 0 <= i < |t| ==> t[i] == if i < j then s[i] else s[i + 1];
        SweepKeepsPickups(t, cs', j + 1, dt, k, trackLength, p);
      } else {
        var i :| 0 <= i < |s| && s[i] == p;
        if i == j {
          PickupStays(p, dt, k, trackLength);
        }
        assert p == s[j := m][i];
        SweepKeepsPickups(s[j := m], cs', j + 1, dt, k, trackLength, p);
      }
    }
  }

  /**
   * The sweep moves no racer: every racer keeps its motion apart from the
   * hop, its stats and its mini-turbo count, and loses no damage it had.
   */
  lemma {:induction false} SweepKeepsRacers(s: seq<Item>, cs: seq<Car>, j: nat, dt: real, k: real, trackLength: real)
    requires trackLength > 0.0
    ensures var r := Sweep(s, cs, j, dt, k, trackLength).1;
      forall i :: 0 <= i < |cs| ==>
        && r[i].motion.(flying := cs[i].motion.flying) == cs[i].motion
        && r[i].stats == cs[i].stats && r[i].status.hasBoosted == cs[i].status.hasBoosted
        && r[i].status.speedUp == cs[i].status.speedUp && r[i].status.boostDiff == cs[i].status.boostDiff
        && r[i].vitals.health <= cs[i].vitals.health
    decreases |s| - j
  {
    if j < |s| {
      var cs' := HitAll(cs, s[j], dt, trackLength);
      var m := MoveItem(s[j], dt, k, trackLength);
      forall i | 0 <= i < |cs|
        ensures cs'[i].motion.(flying := cs[i].motion.flying) == cs[i].motion
        ensures cs'[i].stats == cs[i].stats && cs'[i].status.hasBoosted == cs[i].status.hasBoosted
        ensures cs'[i].status.speedUp == cs[i].status.speedUp && cs'[i].status.boostDiff == cs[i].status.boostDiff
        ensures cs'[i].vitals.health <= cs[i].vitals.health
      {
        HitKeepsMotion(cs[i], s[j], trackLength);
      }
      if Expired(m) {
        SweepKeepsRacers(s[..j] + s[j + 1..], cs', j + 1, dt, k, trackLength);
      } else {
        SweepKeepsRacers(s[j := m], cs', j + 1, dt, k, trackLength);
      }
    }
  }

  /** A spawned projectile with speed 18000 in one 1/60 s step advances exactly 300. */
  lemma ProjectileStep(it: Item)
    requires it.num == FireNum && it.speed == 18000.0 && 0.0 <= it.z && it.z + 300.0 < 108000.0
    ensures MoveItem(it, 1.0 / 60.0, 1.0, 108000.0).z == it.z + 300.0
  {
  }

  /** The collision window is relative: a pickup (speed 0) hits a racer moving 6000 only within 100. */
  lemma PickupWindow(it: Item, c: Car, i: nat)
    requires it.num == PickupNum && it.speed == 0.0 && it.owner != i
    requires c.motion.speed == 6000.0 && c.motion.playerX == it.x
    requires c.motion.laps != MaxLaps && c.motion.playerY == 0.0
    ensures Hits(it, c, i, 1.0 / 60.0) <==> Abs(c.motion.position - it.z) < 100.0
  {
  }
}
