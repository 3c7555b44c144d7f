/**
 * The road (main.py): constants of the race, segments with their boundary
 * points, curve and colour band, the modular segment lookup `find_segment`,
 * the curve profile `add_road` lays down, and the per-segment car lists that
 * `reset_cars` fills and `update_car` maintains.
 */
module Track {
  import opened Arith

  /** `segment_length`, an int after `reset`. */
  const SegmentLength: int := 150
  const L: real := 150.0
  const DrawDistance: nat := 50
  /** Three laps, plus the one `get_new_lap(True)` adds at the start. */
  const MaxLaps: int := 4
  /** `segment_length / step` with step 1/60. */
  const MaxSpeed: real := 9000.0
  const AccelRate: real := 1800.0
  const BrakingRate: real := -9000.0
  const DecelRate: real := -1800.0
  const OffroadDecelRate: real := -4500.0
  const OffroadLimit: real := 4500.0
  const Gravity: real := -3.0
  const CurveMedium: real := 16.0
  const CurveHard: real := 24.0

  /** Which colour list a segment uses: the course's light or dark one, or start/finish. */
  datatype Band = Light | Dark | Start | Finish

  /** A boundary point of a segment: its elevation and its distance along the track. */
  datatype Point = Point(y: real, z: real)

  /** A segment; `cars` holds the indices of the racers on it. */
  datatype Segment = Segment(index: nat, p1: Point, p2: Point, curve: real, band: Band, cars: seq<nat>)

  // ---------------------------------------------------------------- lookup

  /** `find_segment`: the index of the segment containing z, wrapping around the track. */
  function SegIdx(z: real, count: nat): (i: nat)
    requires count > 0
    ensures i < count
  {
    (z / L).Floor % count
  }

  /** Every point of segment i's span [i·L, (i+1)·L) looks up segment i. */
  lemma SegIdxInSpan(z: real, i: nat, count: nat)
    requires i < count && (i as real) * L <= z < ((i + 1) as real) * L
    ensures SegIdx(z, count) == i
  {
    assert (i as real) <= z / L < (i as real) + 1.0;
    assert (z / L).Floor == i;
  }

  /** Positions a whole number of laps apart look up the same segment. */
  lemma SegIdxLap(z: real, count: nat, laps: int)
    requires count > 0
    ensures SegIdx(z + (laps * count) as real * L, count) == SegIdx(z, count)
  {
    var f := (z / L).Floor;
    var w := z + (laps * count) as real * L;
    assert w / L == z / L + (laps * count) as real;
    assert f as real <= z / L < f as real + 1.0;
    assert (w / L).Floor == f + laps * count;
    ModShift(f, laps, count);
  }

  lemma ModShift(f: int, laps: int, count: nat)
    requires count > 0
    ensures (f + laps * count) % count == f % count
  {
    var q, r := f / count, f % count;
    assert f + laps * count == (q + laps) * count + r;
    ModUnique(f + laps * count, count, q + laps, r);
  }

  /** The remainder is the only one in [0, n) that completes a multiple of n. */
  lemma ModUnique(a: int, n: int, q: int, r: int)
    requires n > 0 && a == q * n + r && 0 <= r < n
    ensures a % n == r
  {
    var q2, r2 := a / n, a % n;
    var d := q - q2;
    assert d * n == r2 - r;
  }

  // ---------------------------------------------------------------- building

  /** The band of segment n: `floor(n / rumble_length) % 2` with rumble length 1. */
  function BandOf(n: nat): Band
  {
    if n % 2 == 1 then Dark else Light
  }

  /** `last_y`: the elevation where the road currently ends. */
  function LastY(segs: seq<Segment>): real
  {
    if |segs| == 0 then 0.0 else segs[|segs| - 1].p2.y
  }

  /** The segment `add_segment` appends as segment n. */
  function NewSegment(n: nat, lastY: real, curve: real, y: real): (s: Segment)
    ensures s.index == n && s.p1.z == (n as real) * L && s.p2.z == ((n + 1) as real) * L
    ensures s.cars == [] && s.p1.y == lastY && s.p2.y == y
  {
    Segment(n, Point(lastY, (n as real) * L), Point(y, ((n + 1) as real) * L), curve, BandOf(n), [])
  }

  /** Each segment sits at its own index and spans [index·L, (index+1)·L). */
  predicate Shaped(segs: seq<Segment>)
  {
    forall i :: 0 <= i < |segs| ==>
      segs[i].index == i && segs[i].p1.z == (i as real) * L && segs[i].p2.z == ((i + 1) as real) * L
  }

  /**
   * The curve of the m-th segment `add_road(enter, hold, leave, curve, y)`
   * lays: eased in from 0, held, then eased out to 0 (`math.cos` is `cos`).
   */
  function RoadCurve(enter: nat, hold: nat, leave: nat, curve: real, cos: real -> real, m: nat): real
  {
    if m < enter then EaseIn(0.0, curve, (m as real) / (enter as real))
    else if m < enter + hold then curve
    else if leave == 0 then 0.0
    else EaseInOut(curve, 0.0, ((m - enter - hold) as real) / (leave as real), cos)
  }

  /** The ease-in starts flat, every ease-in curve lies between 0 and the hold curve. */
  lemma RoadCurveEaseIn(enter: nat, hold: nat, leave: nat, curve: real, cos: real -> real, m: nat)
    requires m < enter
    ensures m == 0 ==> RoadCurve(enter, hold, leave, curve, cos, m) == 0.0
    ensures curve >= 0.0 ==> 0.0 <= RoadCurve(enter, hold, leave, curve, cos, m) <= curve
    ensures curve <= 0.0 ==> curve <= RoadCurve(enter, hold, leave, curve, cos, m) <= 0.0
  {
    var p := (m as real) / (enter as real);
    assert 0.0 <= p <= 1.0;
    if curve >= 0.0 {
      EaseMonotone(0.0, curve, 0.0, p);
      EaseMonotone(0.0, curve, p, 1.0);
    } else {
      assert p * p <= 1.0 by { MulMono(p, 1.0, p, 1.0); }
      assert 0.0 <= p * p;
      MulMono(-curve, -curve, p * p, 1.0);
    }
  }

  /** The elevation `add_road` gives the end of its m-th segment, eased from startY to endY. */
  function RoadY(startY: real, endY: real, total: nat, m: nat, cos: real -> real): real
    requires total > 0
  {
    EaseInOut(startY, endY, (m as real) / (total as real), cos)
  }

  /** The curves of the segments of one `add_road` stretch, in the order they are laid. */
  function StretchCurves(enter: nat, hold: nat, leave: nat, curve: real, cos: real -> real): (cs: seq<real>)
    ensures |cs| == enter + hold + leave
    ensures forall m :: 0 <= m < |cs| ==> cs[m] == RoadCurve(enter, hold, leave, curve, cos, m)
  {
    seq(enter + hold + leave, m requires 0 <= m => RoadCurve(enter, hold, leave, curve, cos, m))
  }

  /** The end elevations of the segments of one `add_road` stretch of `total` segments. */
  function StretchYs(startY: real, endY: real, total: nat, cos: real -> real): (ys: seq<real>)
    ensures |ys| == total
    ensures forall m :: 0 <= m < total ==> ys[m] == RoadY(startY, endY, total, m, cos)
  {
    seq(total, m requires 0 <= m < total => RoadY(startY, endY, total, m, cos))
  }

  /**
   * `base` after `add_segment` appended n segments with the given curves and
   * end elevations, each starting at the elevation where the road ended.
   */
  function Laid(base: seq<Segment>, curves: seq<real>, ys: seq<real>, n: nat): (r: seq<Segment>)
    requires n <= |curves| && n <= |ys|
    ensures |r| == |base| + n
  {
    if n == 0 then base
    else
      var prev := Laid(base, curves, ys, n - 1);
      prev + [NewSegment(|prev|, LastY(prev), curves[n - 1], ys[n - 1])]
  }

  /** Laying leaves the road built so far alone; segment m lands at |base| + m and starts where segment m - 1 ended. */
  lemma {:induction false} LaidAt(base: seq<Segment>, curves: seq<real>, ys: seq<real>, n: nat)
    requires n <= |curves| && n <= |ys|
    ensures var r := Laid(base, curves, ys, n);
      && r[..|base|] == base
      && forall m :: 0 <= m < n ==>
           r[|base| + m] == NewSegment(|base| + m, if m == 0 then LastY(base) else ys[m - 1], curves[m], ys[m])
  {
    if n > 0 {
      LaidAt(base, curves, ys, n - 1);
      var prev := Laid(base, curves, ys, n - 1);
      var r := Laid(base, curves, ys, n);
      assert r[..|prev|] == prev;
      assert r[..|base|] == prev[..|base|];
      if n > 1 {
        assert LastY(prev) == prev[|base| + (n - 2)].p2.y;
      }
    }
  }

  /** Laying after a well-shaped road keeps every segment at its own index and span. */
  lemma LaidShaped(base: seq<Segment>, curves: seq<real>, ys: seq<real>, n: nat)
    requires n <= |curves| && n <= |ys| && Shaped(base)
    ensures Shaped(Laid(base, curves, ys, n))
  {
    var r := Laid(base, curves, ys, n);
    LaidAt(base, curves, ys, n);
    forall i | 0 <= i < |r|
      ensures r[i].index == i && r[i].p1.z == (i as real) * L && r[i].p2.z == ((i + 1) as real) * L
    {
      if i < |base| {
        assert r[i] == r[..|base|][i];
      } else {
        assert r[|base| + (i - |base|)] == r[i];
      }
    }
  }

  /** Laying keeps every segment empty of racers and coloured by its own number. */
  lemma LaidBands(base: seq<Segment>, curves: seq<real>, ys: seq<real>, n: nat)
    requires n <= |curves| && n <= |ys|
    requires forall i :: 0 <= i < |base| ==> base[i].cars == [] && base[i].band == BandOf(i)
    ensures var r := Laid(base, curves, ys, n);
      forall i :: 0 <= i < |r| ==> r[i].cars == [] && r[i].band == BandOf(i)
  {
    var r := Laid(base, curves, ys, n);
    LaidAt(base, curves, ys, n);
    forall i | 0 <= i < |r|
      ensures r[i].cars == [] && r[i].band == BandOf(i)
    {
      if i < |base| {
        assert r[i] == r[..|base|][i];
      } else {
        assert r[|base| + (i - |base|)] == r[i];
      }
    }
  }

  /** Every segment is level at elevation 0. */
  predicate Flat(segs: seq<Segment>)
  {
    forall i :: 0 <= i < |segs| ==> segs[i].p1.y == 0.0 && segs[i].p2.y == 0.0
  }

  /** Segments laid at elevation 0 on level road leave the road level. */
  lemma LaidFlat(base: seq<Segment>, curves: seq<real>, ys: seq<real>, n: nat)
    requires n <= |curves| && n <= |ys| && Flat(base)
    requires forall m :: 0 <= m < n ==> ys[m] == 0.0
    ensures Flat(Laid(base, curves, ys, n))
  {
    var r := Laid(base, curves, ys, n);
    LaidAt(base, curves, ys, n);
    forall i | 0 <= i < |r|
      ensures r[i].p1.y == 0.0 && r[i].p2.y == 0.0
    {
      if i < |base| {
        assert r[i] == r[..|base|][i];
      } else {
        assert r[|base| + (i - |base|)] == r[i];
        if i == |base| && |base| > 0 {
          assert base[|base| - 1].p2.y == 0.0;
        }
      }
    }
  }

  /** A stretch that neither starts nor ends above 0 stays at 0: `reset_road` builds a flat track. */
  lemma StretchYsFlat(total: nat, cos: real -> real)
    ensures forall m :: 0 <= m < total ==> StretchYs(0.0, 0.0, total, cos)[m] == 0.0
  {
    forall m | 0 <= m < total
      ensures StretchYs(0.0, 0.0, total, cos)[m] == 0.0
    {
      EaseInOutFlat(0.0, (m as real) / (total as real), cos);
    }
  }

  /** `add_straight` lays only straight segments, whatever the cosine. */
  lemma StraightIsStraight(enter: nat, hold: nat, leave: nat, cos: real -> real, m: nat)
    ensures RoadCurve(enter, hold, leave, 0.0, cos, m) == 0.0
  {
    if m >= enter + hold && leave != 0 {
      EaseInOutFlat(0.0, ((m - enter - hold) as real) / (leave as real), cos);
    }
  }

  /** The number of segments one geometry symbol adds in `reset_road`. */
  function SymbolLength(symbol: int): nat
  {
    if symbol == 1 then 180 else if 0 <= symbol <= 3 then 90 else 0
  }

  function TotalLength(g: seq<int>): nat
  {
    if |g| == 0 then 0 else TotalLength(g[..|g| - 1]) + SymbolLength(g[|g| - 1])
  }

  /** Eight symbols in 0..3 make between 720 and 1440 segments: the track is never empty. */
  lemma {:induction false} TotalLengthBounds(g: seq<int>)
    requires forall i :: 0 <= i < |g| ==> 0 <= g[i] <= 3
    ensures 90 * |g| <= TotalLength(g) <= 180 * |g|
  {
    if |g| > 0 {
      TotalLengthBounds(g[..|g| - 1]);
    }
  }

  // ---------------------------------------------------------------- car lists

  predicate NoDup(s: seq<nat>)
  {
    forall i, j :: 0 <= i < j < |s| ==> s[i] != s[j]
  }

  /**
   * Every racer is listed exactly once, in the lists of the segment its
   * position looks up and in no other.
   */
  predicate Occupancy(segs: seq<Segment>, positions: seq<real>)
  {
    && |segs| > 0
    && (forall s :: 0 <= s < |segs| ==> NoDup(segs[s].cars))
    && (forall s, j :: 0 <= s < |segs| && 0 <= j < |segs[s].cars| ==> segs[s].cars[j] < |positions|)
    && (forall c, s :: 0 <= c < |positions| && 0 <= s < |segs| ==>
          (c in segs[s].cars <==> s == SegIdx(positions[c], |segs|)))
  }

  /** Recolouring a segment leaves every racer listed where it was. */
  lemma RecolourKeepsOccupancy(segs: seq<Segment>, positions: seq<real>, i: nat, band: Band)
    requires Occupancy(segs, positions) && i < |segs|
    ensures Occupancy(segs[i := segs[i].(band := band)], positions)
  {
    var r := segs[i := segs[i].(band := band)];
    assert forall s :: 0 <= s < |r| ==> r[s].cars == segs[s].cars;
  }

  /** `list.remove(x)`: drop the first occurrence of x. */
  function RemoveFirst<T(==)>(s: seq<T>, x: T): seq<T>
  {
    if |s| == 0 then []
    else if s[0] == x then s[1..]
    else [s[0]] + RemoveFirst(s[1..], x)
  }

  /** When no earlier element equals s[j], removing the first s[j] removes index j. */
  lemma {:induction false} RemoveFirstAt<T>(s: seq<T>, j: nat)
    requires j < |s| && forall i :: 0 <= i < j ==> s[i] != s[j]
    ensures RemoveFirst(s, s[j]) == s[..j] + s[j + 1..]
  {
    if j > 0 {
      var t := s[1..];
      assert t[j - 1] == s[j];
      RemoveFirstAt(t, j - 1);
      assert s[0] != s[j];
      assert RemoveFirst(s, s[j]) == [s[0]] + RemoveFirst(t, s[j]);
      assert t[..j - 1] == s[1..j];
      assert t[j..] == s[j + 1..];
      assert [s[0]] + s[1..j] == s[..j];
    }
  }

  lemma {:induction false} RemoveFirstNoDup(s: seq<nat>, x: nat)
    requires NoDup(s)
    ensures NoDup(RemoveFirst(s, x))
    ensures forall y :: y in RemoveFirst(s, x) <==> y in s && y != x
  {
    if |s| > 0 && s[0] != x {
      assert NoDup(s[1..]);
      RemoveFirstNoDup(s[1..], x);
      assert s[0] !in s[1..];
    } else if |s| > 0 {
      assert s[0] !in s[1..];
    }
  }

  /** `update_car`: move a racer's index from its old segment's list to the new one's. */
  function MoveCar(segs: seq<Segment>, c: nat, from: nat, to: nat): (r: seq<Segment>)
    requires from < |segs| && to < |segs|
    ensures |r| == |segs|
    ensures forall s :: 0 <= s < |r| ==> r[s].(cars := segs[s].cars) == segs[s]
    ensures Shaped(segs) ==> Shaped(r)
    ensures Flat(segs) ==> Flat(r)
  {
    if from == to then segs
    else
      var removed := segs[from := segs[from].(cars := RemoveFirst(segs[from].cars, c))];
      removed[to := removed[to].(cars := removed[to].cars + [c])]
  }

  /**
   * Moving a racer between the lists of its old and new segment keeps
   * every racer listed once, in the list of its own segment.
   */
  lemma MoveKeepsOccupancy(segs: seq<Segment>, positions: seq<real>, c: nat, z: real)
    requires Occupancy(segs, positions) && c < |positions|
    ensures var r := MoveCar(segs, c, SegIdx(positions[c], |segs|), SegIdx(z, |segs|));
      Occupancy(r, positions[c := z])
  {
    var n := |segs|;
    var from, to := SegIdx(positions[c], n), SegIdx(z, n);
    var r := MoveCar(segs, c, from, to);
    var ps := positions[c := z];
    if from != to {
      RemoveFirstNoDup(segs[from].cars, c);
      assert c in segs[from].cars;
      assert c !in segs[to].cars;
      forall s | 0 <= s < n
        ensures NoDup(r[s].cars)
        ensures forall d :: d in r[s].cars <==> (d in segs[s].cars && !(s == from && d == c)) || (s == to && d == c)
      {
        if s == to {
          assert r[s].cars == segs[to].cars + [c];
        }
      }
    }
    forall s, j | 0 <= s < n && 0 <= j < |r[s].cars|
      ensures r[s].cars[j] < |ps|
    {
      assert r[s].cars[j] in r[s].cars;
    }
  }

  /** Before `reset_cars` no segment lists a racer: occupancy holds for no racers at all. */
  lemma NoRacersListed(segs: seq<Segment>)
    requires |segs| > 0 && forall s :: 0 <= s < |segs| ==> segs[s].cars == []
    ensures Occupancy(segs, [])
  {
  }

  /**
   * `reset_cars` appends racer n to the list of the segment its position
   * looks up: occupancy then holds for one racer more.
   */
  lemma AppendKeepsOccupancy(segs: seq<Segment>, positions: seq<real>, z: real)
    requires Occupancy(segs, positions)
    ensures var t := SegIdx(z, |segs|);
      Occupancy(segs[t := segs[t].(cars := segs[t].cars + [|positions|])], positions + [z])
  {
    var n := |positions|;
    var t := SegIdx(z, |segs|);
    var r := segs[t := segs[t].(cars := segs[t].cars + [n])];
    var ps := positions + [z];
    assert n !in segs[t].cars;
    forall s | 0 <= s < |segs|
      ensures NoDup(r[s].cars)
      ensures forall d :: d in r[s].cars <==> d in segs[s].cars || (s == t && d == n)
      ensures forall j :: 0 <= j < |r[s].cars| ==> r[s].cars[j] < |ps|
    {
      if s == t {
        forall j | 0 <= j < |r[s].cars|
          ensures r[s].cars[j] < |ps|
        {
          if j < |segs[t].cars| {
            assert r[s].cars[j] == segs[t].cars[j];
          }
        }
      }
    }
    forall c, s | 0 <= c < |ps| && 0 <= s < |segs|
      ensures c in r[s].cars <==> s == SegIdx(ps[c], |segs|)
    {
      if c < n {
        assert ps[c] == positions[c];
        if c in segs[s].cars {
          var j :| 0 <= j < |segs[s].cars| && segs[s].cars[j] == c;
        }
      }
    }
  }

  /** A position moved back by one track length stays listed where it was. */
  lemma OccupancyLapBack(segs: seq<Segment>, positions: seq<real>, c: nat)
    requires Occupancy(segs, positions) && c < |positions|
    ensures Occupancy(segs, positions[c := positions[c] - (|segs| as real) * L])
  {
    var z := positions[c] - (|segs| as real) * L;
    SegIdxLap(z, |segs|, 1);
    assert z + (1 * |segs|) as real * L == positions[c];
  }
}
