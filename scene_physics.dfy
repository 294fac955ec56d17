/** The physics of `core/scene.py` as functions on a list of bodies: the
    softened O(n²) gravity pass that rewrites every velocity from one
    snapshot, and the position pass that moves each body and resolves its
    contacts with every other body, one pair at a time, in list order. */
module ScenePhysics {
  import opened Numerics
  import opened Config

  /** One recorded trail sample `(x, y, elapsed_time)`. */
  datatype TrailPoint = TrailPoint(x: real, y: real, t: real)

  /** The state of a simulated object that the core reads and writes. */
  datatype Body = Body(x: real, y: real, vx: real, vy: real, mass: real, radius: real,
                       trail: seq<TrailPoint>)

  datatype Vec = Vec(x: real, y: real)

  datatype BodyPair = BodyPair(first: Body, second: Body)

  function Add(a: Vec, b: Vec): Vec {
    Vec(a.x + b.x, a.y + b.y)
  }

  /** Squared Euclidean length. */
  function Norm2(v: Vec): (r: real)
    ensures 0.0 <= r
  {
    v.x * v.x + v.y * v.y
  }

  /** `np.linalg.norm` of a 2-vector. */
  function Norm(v: Vec, sqrt: SqrtFn): real {
    sqrt(Norm2(v))
  }

  // ---------------------------------------------------------------- gravity

  /** `a - b`, the relative position of two bodies. */
  function Sep(a: Body, b: Body): Vec {
    Vec(a.x - b.x, a.y - b.y)
  }

  /** `v / d` componentwise. */
  function Div(v: Vec, d: real): Vec
    requires d != 0.0
  {
    Vec(v.x / d, v.y / d)
  }

  /** `s * v` componentwise. */
  function Scale(s: real, v: Vec): Vec {
    Vec(s * v.x, s * v.y)
  }

  /** The pull strength `G * m / c ** 2` at clipped distance `c`. */
  function Strength(m: real, c: real): real
    requires c != 0.0
  {
    G * m / (c * c)
  }

  /** The acceleration body `bj` contributes to body `bi` (lines 44-61): the
      strength `G·m_j / max(d, r_i + r_j)²` along the unclipped unit vector
      from `bi` to `bj`, and nothing at all when the distance is 0. */
  function PairAccel(bi: Body, bj: Body, sqrt: SqrtFn): Vec {
    var r := Sep(bj, bi);
    var d := Norm(r, sqrt);
    if d > 0.0 then Scale(Strength(bj.mass, Max(d, bi.radius + bj.radius)), Div(r, d))
    else Vec(0.0, 0.0)
  }

  /** A pairwise acceleration law: the acceleration the second body gives
      the first. The velocity pass is stated for any law; the simulator's is
      `Gravity(sqrt)`. */
  type Law = (Body, Body) -> Vec

  function Gravity(sqrt: SqrtFn): Law {
    (bi: Body, bj: Body) => PairAccel(bi, bj, sqrt)
  }

  /** The contributions of `objs[..k]` to `bi`, summed in list order. */
  function AccelSum(objs: seq<Body>, bi: Body, k: nat, law: Law): Vec
    requires k <= |objs|
  {
    if k == 0 then Vec(0.0, 0.0)
    else Add(AccelSum(objs, bi, k - 1, law), law(bi, objs[k - 1]))
  }

  /** `accelerations[i]`: the sum over every body of the list, itself
      included (under gravity its distance is 0, so the mask drops it). */
  function Accel(objs: seq<Body>, i: nat, law: Law): Vec
    requires i < |objs|
  {
    AccelSum(objs, objs[i], |objs|, law)
  }

  /** Body `b` with `v + a·dt` as its velocity. */
  function Kick(b: Body, a: Vec, dt: real): (r: Body)
    ensures r.x == b.x && r.y == b.y && r.mass == b.mass && r.radius == b.radius && r.trail == b.trail
  {
    b.(vx := b.vx + a.x * dt, vy := b.vy + a.y * dt)
  }

  /** `accelerations[..k]`: the acceleration of each of the first `k`
      bodies, all computed from `objs`. */
  function Accels(objs: seq<Body>, k: nat, law: Law): (r: seq<Vec>)
    requires k <= |objs|
    ensures |r| == k
  {
    if k == 0 then [] else Accels(objs, k - 1, law) + [Accel(objs, k - 1, law)]
  }

  /** `new_velocities = velocities + accelerations * dt`, written back body by body. */
  function KickAll(objs: seq<Body>, acc: seq<Vec>, dt: real): (r: seq<Body>)
    requires |acc| == |objs|
    ensures |r| == |objs|
  {
    seq(|objs|, i requires 0 <= i < |objs| => Kick(objs[i], acc[i], dt))
  }

  /** The velocity pass: every acceleration is computed from the positions
      and masses of `objs`, before any velocity is written. */
  function VelocityStep(objs: seq<Body>, dt: real, law: Law): (r: seq<Body>)
    ensures |r| == |objs|
  {
    KickAll(objs, Accels(objs, |objs|, law), dt)
  }

  /** `max_acceleration` after `k` iterations of the loop: 0, then the
      running maximum of the acceleration norms. */
  function MaxAccel(objs: seq<Body>, k: nat, law: Law, sqrt: SqrtFn): (r: real)
    requires k <= |objs|
  {
    if k == 0 then 0.0 else Max(MaxAccel(objs, k - 1, law, sqrt), Norm(Accel(objs, k - 1, law), sqrt))
  }

  /** `np.max` of the speeds of a non-empty list of bodies. */
  function MaxSpeed(objs: seq<Body>, k: nat, sqrt: SqrtFn): (r: real)
    requires 1 <= k <= |objs|
  {
    var s := Norm(Vec(objs[k - 1].vx, objs[k - 1].vy), sqrt);
    if k == 1 then s else Max(MaxSpeed(objs, k - 1, sqrt), s)
  }

  // -------------------------------------------------------------- collisions

  /** `obj.x += obj.vx * dt; obj.y += obj.vy * dt`. */
  function Move(b: Body, dt: real): (r: Body)
    ensures r.vx == b.vx && r.vy == b.vy && r.mass == b.mass && r.radius == b.radius
  {
    b.(x := b.x + b.vx * dt, y := b.y + b.vy * dt)
  }

  /** The separation `b1 - b2` and its length, as the source computes them. */
  function Dist(b1: Body, b2: Body, sqrt: SqrtFn): real {
    Norm(Sep(b1, b2), sqrt)
  }

  /** Normal component of the relative velocity `v1 - v2` along `n`. */
  function RelNormal(b1: Body, b2: Body, n: Vec): real {
    (b1.vx - b2.vx) * n.x + (b1.vy - b2.vy) * n.y
  }

  /** `1 / m1 + 1 / m2`, the divisor of the impulse. */
  function InvMassSum(b1: Body, b2: Body): real
    requires b1.mass != 0.0 && b2.mass != 0.0
  {
    1.0 / b1.mass + 1.0 / b2.mass
  }

  /** The impulse can be computed: no zero mass and a non-zero `1/m1 + 1/m2`. */
  predicate ImpulseDefined(b1: Body, b2: Body) {
    b1.mass != 0.0 && b2.mass != 0.0 && InvMassSum(b1, b2) != 0.0
  }

  /** The impulse `-(1 + COR)·v_rel / (1/m1 + 1/m2)`. */
  function Impulse(b1: Body, b2: Body, rel: real): real
    requires ImpulseDefined(b1, b2)
  {
    -(1.0 + COEFFICIENT_OF_RESTITUTION) * rel / InvMassSum(b1, b2)
  }

  /** `b` after `vx += dv.x; vy += dv.y; x += dp.x; y += dp.y`. */
  function Push(b: Body, dv: Vec, dp: Vec): (r: Body)
    ensures r.mass == b.mass && r.radius == b.radius && r.trail == b.trail
  {
    b.(vx := b.vx + dv.x, vy := b.vy + dv.y, x := b.x + dp.x, y := b.y + dp.y)
  }

  /** `b` after `vx -= dv.x; vy -= dv.y; x -= dp.x; y -= dp.y`. */
  function Pull(b: Body, dv: Vec, dp: Vec): (r: Body)
    ensures r.mass == b.mass && r.radius == b.radius && r.trail == b.trail
  {
    b.(vx := b.vx - dv.x, vy := b.vy - dv.y, x := b.x - dp.x, y := b.y - dp.y)
  }

  /** `(nx * overlap / 2, ny * overlap / 2)`, the push each body gets. */
  function HalfOverlap(n: Vec, overlap: real): Vec {
    Vec(n.x * overlap / 2.0, n.y * overlap / 2.0)
  }

  /** The response once a contact fires, with unit normal `n` and
      distance `d` (lines 93-108): the impulse `j·n` divided by each mass
      on the velocities, then half of the overlap pushed onto each body
      along the normal. */
  function Respond(b1: Body, b2: Body, n: Vec, d: real): BodyPair
    requires ImpulseDefined(b1, b2)
  {
    var k := Scale(Impulse(b1, b2, RelNormal(b1, b2, n)), n);
    var c := HalfOverlap(n, b1.radius + b2.radius - d);
    BodyPair(Push(b1, Div(k, b1.mass), c), Pull(b2, Div(k, b2.mass), c))
  }

  /** The contact test and response of lines 79-108 for `obj = b1` and
      `other = b2`. `None` leaves the step unspecified: a zero mass, where
      `1/m1` (line 95) raises `ZeroDivisionError`; a contact at distance 0
      (line 85) or inverse masses summing to zero (line 95), where the
      source divides numpy scalars and goes on with NaN or infinity. */
  function Resolve(b1: Body, b2: Body, sqrt: SqrtFn): Option<BodyPair> {
    var d := Dist(b1, b2, sqrt);
    if d > b1.radius + b2.radius then Some(BodyPair(b1, b2))
    else if d == 0.0 then None
    else
      var n := Div(Sep(b1, b2), d);
      if RelNormal(b1, b2, n) > 0.0 then Some(BodyPair(b1, b2))
      else if !ImpulseDefined(b1, b2) then None
      else Some(Respond(b1, b2, n, d))
  }

  /** The response of `Resolve` fires: the bodies touch at non-zero
      distance, are not separating, and the impulse is defined. */
  predicate Fires(b1: Body, b2: Body, sqrt: SqrtFn) {
    var d := Dist(b1, b2, sqrt);
    d != 0.0 && d <= b1.radius + b2.radius &&
    RelNormal(b1, b2, Div(Sep(b1, b2), d)) <= 0.0 &&
    ImpulseDefined(b1, b2)
  }

  /** The inner loop `for j, other in enumerate(objects): if i != j: ...`
      from index `j` on, with body `i` already moved. */
  function CollideFrom(objs: seq<Body>, i: nat, j: nat, sqrt: SqrtFn): (r: Option<seq<Body>>)
    requires i < |objs| && j <= |objs|
    ensures r.Some? ==> |r.value| == |objs|
    decreases |objs| - j
  {
    if j == |objs| then Some(objs)
    else if j == i then CollideFrom(objs, i, j + 1, sqrt)
    else match Resolve(objs[i], objs[j], sqrt) {
      case None => None
      case Some(p) => CollideFrom(objs[i := p.first][j := p.second], i, j + 1, sqrt)
    }
  }

  /** The outer loop of `update_object_positions` from index `i` on. */
  function PositionsFrom(objs: seq<Body>, i: nat, dt: real, sqrt: SqrtFn): Option<seq<Body>>
    requires i <= |objs|
    decreases |objs| - i
  {
    if i == |objs| then Some(objs)
    else match CollideFrom(objs[i := Move(objs[i], dt)], i, 0, sqrt) {
      case None => None
      case Some(o) => PositionsFrom(o, i + 1, dt, sqrt)
    }
  }

  /** `update_object_positions`; `None` when a contact step is unspecified. */
  function PositionStep(objs: seq<Body>, dt: real, sqrt: SqrtFn): Option<seq<Body>> {
    PositionsFrom(objs, 0, dt, sqrt)
  }
}
