/**
 * Standings (main.py `update_places`, `get_new_lap` and the leader lookup
 * at the top of `update`): the sort key of each racer, the place the stable
 * ascending sort gives it, the lap wrap and the leader's progress that the
 * catch-up factor chases.
 */
module Standings {
  import opened Arith
  import opened Player
  import opened Track
  import opened Physics

  // ---------------------------------------------------------------- places

  /**
   * The key `update_places` sorts by: distance driven over all laps, and
   * for a racer that has finished, a bonus of (6 - previous place) laps so
   * that finishers keep the order they finished in.
   */
  function Key(c: Car, trackLength: real): real
  {
    var driven := c.motion.position + (c.motion.laps as real) * trackLength;
    if c.motion.laps == MaxLaps then driven + ((6 - c.held.place) as real) * trackLength else driven
  }

  function Keys(cs: seq<Car>, trackLength: real): (ks: seq<real>)
    ensures |ks| == |cs| && forall i :: 0 <= i < |cs| ==> ks[i] == Key(cs[i], trackLength)
  {
    seq(|cs|, i requires 0 <= i < |cs| => Key(cs[i], trackLength))
  }

  /** Entry m comes before entry i in Python's stable ascending sort. */
  predicate Before(keys: seq<real>, m: nat, i: nat)
    requires m < |keys| && i < |keys|
  {
    keys[m] < keys[i] || (keys[m] == keys[i] && m < i)
  }

  /** How many of the first n entries come before entry i. */
  function CountBefore(keys: seq<real>, i: nat, n: nat): (r: nat)
    requires i < |keys| && n <= |keys|
    ensures r <= n
  {
    if n == 0 then 0 else CountBefore(keys, i, n - 1) + (if Before(keys, n - 1, i) then 1 else 0)
  }

  /** An entry never comes before itself, so at most n - 1 of n entries precede it. */
  lemma {:induction false} CountBeforeSelf(keys: seq<real>, i: nat, n: nat)
    requires i < n <= |keys|
    ensures CountBefore(keys, i, n) <= n - 1
  {
    if n - 1 != i {
      CountBeforeSelf(keys, i, n - 1);
    }
  }

  /** The place the sort gives entry i: the last entry of the ascending order is first. */
  function Place(keys: seq<real>, i: nat): (p: int)
    requires i < |keys|
    ensures 1 <= p <= |keys|
  {
    CountBeforeSelf(keys, i, |keys|);
    |keys| - CountBefore(keys, i, |keys|)
  }

  /** Everything before i is before j when i is before j, and i itself is too. */
  lemma {:induction false} CountMono(keys: seq<real>, i: nat, j: nat, n: nat)
    requires i < |keys| && j < |keys| && n <= |keys| && Before(keys, i, j)
    ensures CountBefore(keys, i, n) + (if i < n then 1 else 0) <= CountBefore(keys, j, n)
  {
    if n > 0 {
      CountMono(keys, i, j, n - 1);
    }
  }

  /** A strictly larger key means a strictly better (smaller) place. */
  lemma PlaceByKey(keys: seq<real>, i: nat, j: nat)
    requires i < |keys| && j < |keys| && keys[i] > keys[j]
    ensures Place(keys, i) < Place(keys, j)
  {
    CountMono(keys, j, i, |keys|);
  }

  /** Equal keys keep their list order: the lower index sorts first and gets the worse place. */
  lemma PlaceTie(keys: seq<real>, i: nat, j: nat)
    requires i < j < |keys| && keys[i] == keys[j]
    ensures Place(keys, i) > Place(keys, j)
  {
    CountMono(keys, i, j, |keys|);
  }

  /** No two racers share a place: the places are a permutation of 1..N. */
  lemma PlacesDistinct(keys: seq<real>, i: nat, j: nat)
    requires i < |keys| && j < |keys| && i != j
    ensures Place(keys, i) != Place(keys, j)
  {
    if Before(keys, i, j) {
      CountMono(keys, i, j, |keys|);
    } else {
      CountMono(keys, j, i, |keys|);
    }
  }

  /**
   * With six racers, a finisher whose place was p and one whose place was
   * worse stay in that order, whatever their positions inside the lap.
   */
  lemma FinishersKeepOrder(a: Car, b: Car, trackLength: real)
    requires trackLength > 0.0
    requires a.motion.laps == MaxLaps && b.motion.laps == MaxLaps && a.held.place < b.held.place
    requires 0.0 <= a.motion.position < trackLength && 0.0 <= b.motion.position < trackLength
    ensures Key(a, trackLength) > Key(b, trackLength)
  {
    var n := (b.held.place - a.held.place) as real;
    var d := n * trackLength;
    MulMono(1.0, n, trackLength, trackLength);
    assert Key(a, trackLength) - Key(b, trackLength) == a.motion.position - b.motion.position + d;
  }

  /** A finisher with a place up to 6 sorts ahead of every racer still on an earlier lap. */
  lemma FinishersAheadOfRacers(f: Car, u: Car, trackLength: real)
    requires trackLength > 0.0
    requires f.motion.laps == MaxLaps && f.held.place <= 6 && 0.0 <= f.motion.position
    requires u.motion.laps < MaxLaps && 0.0 <= u.motion.position < trackLength
    ensures Key(f, trackLength) > Key(u, trackLength)
  {
    MulMono(0.0, (6 - f.held.place) as real, trackLength, trackLength);
    assert Key(f, trackLength) >= 4.0 * trackLength;
    if u.motion.laps >= 0 {
      MulMono(u.motion.laps as real, 3.0, trackLength, trackLength);
    } else {
      MulMono(0.0, -(u.motion.laps as real), trackLength, trackLength);
      assert (u.motion.laps as real) * trackLength == -(-(u.motion.laps as real) * trackLength);
    }
    assert (u.motion.laps as real) * trackLength <= 3.0 * trackLength;
    assert u.motion.laps != MaxLaps;
    assert Key(u, trackLength) == u.motion.position + (u.motion.laps as real) * trackLength;
  }

  // ---------------------------------------------------------------- laps

  /**
   * `get_new_lap` for one racer: past the end of the track it drops back by
   * one track length and, outside the title screen, starts a new lap; at
   * the start of a race every racer below the line starts lap 1.
   */
  function NewLap(c: Car, first: bool, isTitle: bool, trackLength: real): (r: Car)
    ensures r == c.(motion := c.motion.(position := r.motion.position, laps := r.motion.laps))
    ensures c.motion.position >= trackLength ==>
      r.motion.position == c.motion.position - trackLength && r.motion.laps == c.motion.laps + (if isTitle then 0 else 1)
    ensures c.motion.position < trackLength ==>
      r.motion.position == c.motion.position && r.motion.laps == c.motion.laps + (if first then 1 else 0)
  {
    if c.motion.position >= trackLength then
      c.(motion := c.motion.(position := c.motion.position - trackLength,
                             laps := if isTitle then c.motion.laps else c.motion.laps + 1))
    else if first then c.(motion := c.motion.(laps := c.motion.laps + 1))
    else c
  }

  /** A position the step left inside [0, 2·track length] ends inside [0, track length]. */
  lemma NewLapInRange(c: Car, first: bool, isTitle: bool, trackLength: real)
    requires 0.0 <= c.motion.position <= 2.0 * trackLength
    ensures 0.0 <= NewLap(c, first, isTitle, trackLength).motion.position <= trackLength
  {
  }

  /** In a race the wrap is invisible to progress: distance moves into the lap count. */
  lemma NewLapKeepsProgress(c: Car, trackLength: real)
    ensures Progress(NewLap(c, false, false, trackLength), trackLength) == Progress(c, trackLength)
  {
  }

  // ---------------------------------------------------------------- leader

  /**
   * `first_pos` for racer p: the progress of the last other racer, in list
   * order, that holds place 1, or 0 when none does.
   */
  function FirstPos(cs: seq<Car>, p: nat, trackLength: real): real
  {
    FirstPosIn(cs, p, |cs|, trackLength)
  }

  function FirstPosIn(cs: seq<Car>, p: nat, n: nat, trackLength: real): (f: real)
    requires n <= |cs|
    ensures (forall q :: 0 <= q < n && q != p ==> cs[q].held.place != 1) ==> f == 0.0
    ensures (exists q :: 0 <= q < n && q != p && cs[q].held.place == 1) ==>
      exists q :: 0 <= q < n && q != p && cs[q].held.place == 1 && f == Progress(cs[q], trackLength)
  {
    if n == 0 then 0.0
    else if n - 1 != p && cs[n - 1].held.place == 1 then Progress(cs[n - 1], trackLength)
    else FirstPosIn(cs, p, n - 1, trackLength)
  }

  /** While every racer is inside the track and on lap 1 or later, the leader's progress is not negative. */
  lemma FirstPosNonNegative(cs: seq<Car>, p: nat, trackLength: real)
    requires trackLength >= 0.0
    requires forall q :: 0 <= q < |cs| ==> cs[q].motion.position >= 0.0 && cs[q].motion.laps >= 1
    ensures FirstPos(cs, p, trackLength) >= 0.0
  {
    var f := FirstPos(cs, p, trackLength);
    if exists q :: 0 <= q < |cs| && q != p && cs[q].held.place == 1 {
      var q :| 0 <= q < |cs| && q != p && cs[q].held.place == 1 && f == Progress(cs[q], trackLength);
      assert ((cs[q].motion.laps - 1) as real) * trackLength >= 0.0;
    }
  }

  /** The leader itself, with nobody else in first place, gets no catch-up boost. */
  lemma LeaderNotBoosted(cs: seq<Car>, p: nat, trackLength: real)
    requires p < |cs| && forall q :: 0 <= q < |cs| && q != p ==> cs[q].held.place != 1
    requires Progress(cs[p], trackLength) >= 0.0
    ensures CatchUp(FirstPos(cs, p, trackLength), Progress(cs[p], trackLength)) == 1.0
  {
  }
}
