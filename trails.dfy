/** The trail trimmer embedded in `Scene.draw_objects` (core/scene.py:175-206),
    apart from the drawing. Walking the trail from the newest point back, it
    keeps a point while the point is young enough and the path walked so far
    (from the body through every kept point) is short enough, and stops at the
    first point that fails. */
module SceneTrails {
  import opened Numerics
  import opened ScenePhysics

  /** `max_length = 1e30`, in metres. */
  const MAX_TRAIL_LENGTH: real := 1000000000000000000000000000000.0

  /** The length of the segment from `(lx, ly)` to the trail point `p`. */
  function SegLen(lx: real, ly: real, p: TrailPoint, sqrt: SqrtFn): real {
    Norm(Vec(lx - p.x, ly - p.y), sqrt)
  }

  /** A point passes when its age and the running path length are within the limits. */
  predicate Passes(p: TrailPoint, elapsed: real, maxAge: real, total: real) {
    elapsed - p.t <= maxAge && total <= MAX_TRAIL_LENGTH
  }

  /** How many of `trail[..k]`, counted from index `k - 1` backwards, the loop
      keeps when it starts at `(lx, ly)` with `total` already walked. */
  function KeepCount(trail: seq<TrailPoint>, k: nat, elapsed: real, maxAge: real,
                     lx: real, ly: real, total: real, sqrt: SqrtFn): (c: nat)
    requires k <= |trail|
    ensures c <= k
  {
    if k == 0 then 0
    else
      var p := trail[k - 1];
      var t := total + SegLen(lx, ly, p, sqrt);
      if Passes(p, elapsed, maxAge, t) then 1 + KeepCount(trail, k - 1, elapsed, maxAge, p.x, p.y, t, sqrt)
      else 0
  }

  /** The trimmed trail: the suffix the backward walk keeps, oldest first. */
  function Trimmed(trail: seq<TrailPoint>, elapsed: real, maxAge: real,
                   x: real, y: real, sqrt: SqrtFn): seq<TrailPoint> {
    trail[|trail| - KeepCount(trail, |trail|, elapsed, maxAge, x, y, 0.0, sqrt)..]
  }

  /** The path length from `(lx, ly)` through `r[|r| - 1]`, `r[|r| - 2]`, ...,
      `r[0]`: the newest point first, as the loop walks it. */
  function PathLen(lx: real, ly: real, r: seq<TrailPoint>, sqrt: SqrtFn): real
    decreases |r|
  {
    if r == [] then 0.0
    else
      var p := r[|r| - 1];
      SegLen(lx, ly, p, sqrt) + PathLen(p.x, p.y, r[..|r| - 1], sqrt)
  }

  /** The loop of lines 189-202: walks `reversed(trail)` and inserts every
      kept point at the front of the result, stopping at the first point that
      fails. */
  method TrimTrail(trail: seq<TrailPoint>, x: real, y: real, elapsed: real, maxAge: real,
                   sqrt: SqrtFn) returns (r: seq<TrailPoint>)
    ensures r == Trimmed(trail, elapsed, maxAge, x, y, sqrt)
  {
    r := [];
    var total := 0.0;
    var lx, ly := x, y;
    var k := |trail|;
    while k > 0
      invariant 0 <= k <= |trail|
      invariant k + |r| == |trail| && r == trail[k..]
      invariant KeepCount(trail, k, elapsed, maxAge, lx, ly, total, sqrt) + |r|
                == KeepCount(trail, |trail|, elapsed, maxAge, x, y, 0.0, sqrt)
      decreases k
    {
      var p := trail[k - 1];
      var age := elapsed - p.t;
      total := total + SegLen(lx, ly, p, sqrt);
      if age <= maxAge && total <= MAX_TRAIL_LENGTH {
        r := [p] + r;
        lx, ly := p.x, p.y;
        k := k - 1;
      } else {
        break;
      }
    }
  }

  /** The pass over one body with trails enabled: `(x, y, elapsed)` is
      appended, then the trail is trimmed with `max_age = trail_length ·
      speed_multiplier`. With trails disabled the trail becomes empty. */
  function RecordTrail(b: Body, enabled: bool, elapsed: real, maxAge: real, sqrt: SqrtFn): Body {
    if enabled then b.(trail := Trimmed(b.trail + [TrailPoint(b.x, b.y, elapsed)], elapsed, maxAge, b.x, b.y, sqrt))
    else b.(trail := [])
  }

  // ------------------------------------------------------------ properties

  /** The walk over `trail[a..k]` starts with the segment to `trail[k - 1]`. */
  lemma PathLenUnroll(trail: seq<TrailPoint>, a: nat, k: nat, lx: real, ly: real, sqrt: SqrtFn)
    requires a < k <= |trail|
    ensures PathLen(lx, ly, trail[a..k], sqrt)
            == SegLen(lx, ly, trail[k - 1], sqrt) + PathLen(trail[k - 1].x, trail[k - 1].y, trail[a..k - 1], sqrt)
  {
    var s := trail[a..k];
    assert s[|s| - 1] == trail[k - 1];
    assert s[..|s| - 1] == trail[a..k - 1];
  }

  /** Every kept point is young enough. */
  lemma {:induction false} KeepCountAges(trail: seq<TrailPoint>, k: nat, elapsed: real, maxAge: real,
                                         lx: real, ly: real, total: real, sqrt: SqrtFn)
    requires k <= |trail|
    ensures var c := KeepCount(trail, k, elapsed, maxAge, lx, ly, total, sqrt);
            forall m :: k - c <= m < k ==> elapsed - trail[m].t <= maxAge
  {
    if k > 0 {
      var p := trail[k - 1];
      var t := total + SegLen(lx, ly, p, sqrt);
      if Passes(p, elapsed, maxAge, t) {
        KeepCountAges(trail, k - 1, elapsed, maxAge, p.x, p.y, t, sqrt);
      }
    }
  }

  /** The walked path through the kept points is short enough. */
  lemma {:induction false} KeepCountPath(trail: seq<TrailPoint>, k: nat, elapsed: real, maxAge: real,
                                         lx: real, ly: real, total: real, sqrt: SqrtFn)
    requires k <= |trail|
    ensures var c := KeepCount(trail, k, elapsed, maxAge, lx, ly, total, sqrt);
            c > 0 ==> total + PathLen(lx, ly, trail[k - c..k], sqrt) <= MAX_TRAIL_LENGTH
  {
    if k > 0 {
      var p := trail[k - 1];
      var t := total + SegLen(lx, ly, p, sqrt);
      if Passes(p, elapsed, maxAge, t) {
        KeepCountPath(trail, k - 1, elapsed, maxAge, p.x, p.y, t, sqrt);
        var c := KeepCount(trail, k, elapsed, maxAge, lx, ly, total, sqrt);
        PathLenUnroll(trail, k - c, k, lx, ly, sqrt);
      }
    }
  }

  /** If the point `c'` places behind `trail[k - 1]` fails on the path walked
      from `trail[k - 1]`, it fails on the path walked from `(lx, ly)` too. */
  lemma FailsFurtherBack(trail: seq<TrailPoint>, k: nat, c': nat, elapsed: real, maxAge: real,
                         lx: real, ly: real, total: real, sqrt: SqrtFn)
    requires c' + 1 < k <= |trail|
    requires !Passes(trail[k - c' - 2], elapsed, maxAge,
                     (total + SegLen(lx, ly, trail[k - 1], sqrt))
                     + PathLen(trail[k - 1].x, trail[k - 1].y, trail[k - c' - 2..k - 1], sqrt))
    ensures !Passes(trail[k - c' - 2], elapsed, maxAge, total + PathLen(lx, ly, trail[k - c' - 2..k], sqrt))
  {
    PathLenUnroll(trail, k - c' - 2, k, lx, ly, sqrt);
  }

  /** The walk stops only at a point that fails: walking one point further
      back would reach a point older than `max_age` or a path longer than
      `MAX_TRAIL_LENGTH`. */
  lemma {:induction false} KeepCountMaximal(trail: seq<TrailPoint>, k: nat, elapsed: real, maxAge: real,
                                            lx: real, ly: real, total: real, sqrt: SqrtFn)
    requires k <= |trail|
    ensures var c := KeepCount(trail, k, elapsed, maxAge, lx, ly, total, sqrt);
            c < k ==>
              !Passes(trail[k - c - 1], elapsed, maxAge, total + PathLen(lx, ly, trail[k - c - 1..k], sqrt))
    decreases k, 1
  {
    if k > 0 {
      if Passes(trail[k - 1], elapsed, maxAge, total + SegLen(lx, ly, trail[k - 1], sqrt)) {
        KeepCountMaximalPassing(trail, k, elapsed, maxAge, lx, ly, total, sqrt);
      } else {
        PathLenUnroll(trail, k - 1, k, lx, ly, sqrt);
        assert trail[k - 1..k - 1] == [];
      }
    }
  }

  /** The case of `KeepCountMaximal` where the newest remaining point is kept. */
  lemma {:induction false} KeepCountMaximalPassing(trail: seq<TrailPoint>, k: nat, elapsed: real, maxAge: real,
                                                   lx: real, ly: real, total: real, sqrt: SqrtFn)
    requires 0 < k <= |trail|
    requires Passes(trail[k - 1], elapsed, maxAge, total + SegLen(lx, ly, trail[k - 1], sqrt))
    ensures var c := KeepCount(trail, k, elapsed, maxAge, lx, ly, total, sqrt);
            c < k ==>
              !Passes(trail[k - c - 1], elapsed, maxAge, total + PathLen(lx, ly, trail[k - c - 1..k], sqrt))
    decreases k, 0
  {
    var p := trail[k - 1];
    var t := total + SegLen(lx, ly, p, sqrt);
    var c' := KeepCount(trail, k - 1, elapsed, maxAge, p.x, p.y, t, sqrt);
    KeepCountMaximal(trail, k - 1, elapsed, maxAge, p.x, p.y, t, sqrt);
    if c' + 1 < k {
      FailsFurtherBack(trail, k, c', elapsed, maxAge, lx, ly, total, sqrt);
    }
  }

  /** Every point the trimmer keeps has `age <= max_age`. */
  lemma TrimmedAges(trail: seq<TrailPoint>, elapsed: real, maxAge: real, x: real, y: real, sqrt: SqrtFn)
    ensures var r := Trimmed(trail, elapsed, maxAge, x, y, sqrt);
            forall m :: 0 <= m < |r| ==> elapsed - r[m].t <= maxAge
  {
    var n := |trail|;
    var c := KeepCount(trail, n, elapsed, maxAge, x, y, 0.0, sqrt);
    var r := Trimmed(trail, elapsed, maxAge, x, y, sqrt);
    KeepCountAges(trail, n, elapsed, maxAge, x, y, 0.0, sqrt);
    forall m | 0 <= m < |r|
      ensures elapsed - r[m].t <= maxAge
    {
      assert r[m] == trail[n - c + m];
    }
  }

  /** The path from the body through the kept points is at most `MAX_TRAIL_LENGTH`. */
  lemma TrimmedPath(trail: seq<TrailPoint>, elapsed: real, maxAge: real, x: real, y: real, sqrt: SqrtFn)
    ensures PathLen(x, y, Trimmed(trail, elapsed, maxAge, x, y, sqrt), sqrt) <= MAX_TRAIL_LENGTH
  {
    var n := |trail|;
    var c := KeepCount(trail, n, elapsed, maxAge, x, y, 0.0, sqrt);
    KeepCountPath(trail, n, elapsed, maxAge, x, y, 0.0, sqrt);
    assert Trimmed(trail, elapsed, maxAge, x, y, sqrt) == trail[n - c..n];
  }

  /** One point more than the trimmer keeps is too old or makes the path too long. */
  lemma TrimmedMaximal(trail: seq<TrailPoint>, elapsed: real, maxAge: real, x: real, y: real, sqrt: SqrtFn)
    ensures var r := Trimmed(trail, elapsed, maxAge, x, y, sqrt);
            |r| < |trail| ==>
              var q := trail[|trail| - |r| - 1];
              elapsed - q.t > maxAge || PathLen(x, y, trail[|trail| - |r| - 1..], sqrt) > MAX_TRAIL_LENGTH
  {
    var n := |trail|;
    var c := KeepCount(trail, n, elapsed, maxAge, x, y, 0.0, sqrt);
    if c < n {
      KeepCountMaximal(trail, n, elapsed, maxAge, x, y, 0.0, sqrt);
      assert trail[n - c - 1..] == trail[n - c - 1..n];
    }
  }

  /** The trimmed trail is a suffix of the trail; every point in it has
      `age <= max_age`; the path from the body through it, newest first, is at
      most `MAX_TRAIL_LENGTH`; and it is the longest suffix the walk can reach:
      one point more is too old or makes the path too long. */
  lemma TrimmedSpec(trail: seq<TrailPoint>, elapsed: real, maxAge: real, x: real, y: real, sqrt: SqrtFn)
    ensures var r := Trimmed(trail, elapsed, maxAge, x, y, sqrt);
            |r| <= |trail| && r == trail[|trail| - |r|..] &&
            (forall m :: 0 <= m < |r| ==> elapsed - r[m].t <= maxAge) &&
            PathLen(x, y, r, sqrt) <= MAX_TRAIL_LENGTH
    ensures var r := Trimmed(trail, elapsed, maxAge, x, y, sqrt);
            |r| < |trail| ==>
              var q := trail[|trail| - |r| - 1];
              elapsed - q.t > maxAge || PathLen(x, y, trail[|trail| - |r| - 1..], sqrt) > MAX_TRAIL_LENGTH
  {
    TrimmedAges(trail, elapsed, maxAge, x, y, sqrt);
    TrimmedPath(trail, elapsed, maxAge, x, y, sqrt);
    TrimmedMaximal(trail, elapsed, maxAge, x, y, sqrt);
  }

  /** A point at the walker's own position adds nothing to the path. */
  lemma SegLenSelf(p: TrailPoint, sqrt: SqrtFn)
    requires IsSqrt(sqrt)
    ensures SegLen(p.x, p.y, p, sqrt) == 0.0
  {
    assert Vec(p.x - p.x, p.y - p.y) == Vec(0.0, 0.0);
    assert Norm2(Vec(0.0, 0.0)) == 0.0;
    SqrtZero(sqrt);
  }

  /** A newest point at the walker's start, with age 0 and a zero first
      segment, is kept whenever `max_age >= 0`. */
  lemma NewestKept(trail: seq<TrailPoint>, elapsed: real, maxAge: real, x: real, y: real, sqrt: SqrtFn)
    requires |trail| >= 1 && trail[|trail| - 1].t == elapsed && 0.0 <= maxAge
    requires SegLen(x, y, trail[|trail| - 1], sqrt) == 0.0
    ensures var r := Trimmed(trail, elapsed, maxAge, x, y, sqrt);
            |r| >= 1 && r[|r| - 1] == trail[|trail| - 1]
  {
    var n := |trail|;
    assert Passes(trail[n - 1], elapsed, maxAge, 0.0 + SegLen(x, y, trail[n - 1], sqrt));
    assert KeepCount(trail, n, elapsed, maxAge, x, y, 0.0, sqrt) >= 1;
  }

  /** The point just appended, at the body's own position and with age 0,
      always survives when `max_age >= 0`. */
  lemma NewestSurvives(b: Body, elapsed: real, maxAge: real, sqrt: SqrtFn)
    requires IsSqrt(sqrt) && 0.0 <= maxAge
    ensures var r := RecordTrail(b, true, elapsed, maxAge, sqrt).trail;
            |r| >= 1 && r[|r| - 1] == TrailPoint(b.x, b.y, elapsed)
  {
    SegLenSelf(TrailPoint(b.x, b.y, elapsed), sqrt);
    RecordKeepsNewest(b, elapsed, maxAge, sqrt);
  }

  lemma RecordKeepsNewest(b: Body, elapsed: real, maxAge: real, sqrt: SqrtFn)
    requires 0.0 <= maxAge && SegLen(b.x, b.y, TrailPoint(b.x, b.y, elapsed), sqrt) == 0.0
    ensures var r := RecordTrail(b, true, elapsed, maxAge, sqrt).trail;
            |r| >= 1 && r[|r| - 1] == TrailPoint(b.x, b.y, elapsed)
  {
    var p := TrailPoint(b.x, b.y, elapsed);
    var trail := b.trail + [p];
    assert trail[|trail| - 1] == p;
    NewestKept(trail, elapsed, maxAge, b.x, b.y, sqrt);
  }

  /** With trails disabled the trail is emptied; either way only the trail changes. */
  lemma RecordTrailFrame(b: Body, enabled: bool, elapsed: real, maxAge: real, sqrt: SqrtFn)
    ensures var r := RecordTrail(b, enabled, elapsed, maxAge, sqrt);
            r.x == b.x && r.y == b.y && r.vx == b.vx && r.vy == b.vy &&
            r.mass == b.mass && r.radius == b.radius
    ensures !enabled ==> RecordTrail(b, enabled, elapsed, maxAge, sqrt).trail == []
  {
  }
}
