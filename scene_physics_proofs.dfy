/** Properties of the `core/scene.py` physics: what the gravity pass does to
    bodies that share one position, the bound the softening puts on every
    pairwise pull, Newton's third law for the pulls, and the conservation
    laws, restitution and exact separation of the contact response. */
module ScenePhysicsProofs {
  import opened Numerics
  import opened Config
  import opened ScenePhysics

  // ---------------------------------------------------------------- vectors

  lemma Norm2Mul(v: Vec)
    ensures Norm2(v) == Mul(v.x, v.x) + Mul(v.y, v.y)
  {
  }

  lemma ZeroNorm(sqrt: SqrtFn)
    requires IsSqrt(sqrt)
    ensures Norm(Vec(0.0, 0.0), sqrt) == 0.0
  {
    assert Norm2(Vec(0.0, 0.0)) == 0.0;
    SqrtZero(sqrt);
  }

  /** `v / d` is a unit vector when `d` is the length of `v`. */
  lemma DivUnit(v: Vec, d: real)
    requires d != 0.0 && Mul(d, d) == Norm2(v)
    ensures Norm2(Div(v, d)) == 1.0
  {
    var n := Div(v, d);
    MulDivBack(v.x, d);
    MulDivBack(v.y, d);
    assert Mul(n.x, d) == v.x && Mul(n.y, d) == v.y;
    SquareOfProduct(n.x, d);
    SquareOfProduct(n.y, d);
    Norm2Mul(v);
    Norm2Mul(n);
    MulDistrib(Mul(n.x, n.x), Mul(n.y, n.y), Mul(d, d));
    MulSelfNonZero(d);
    CancelFactor(Mul(n.x, n.x) + Mul(n.y, n.y), Mul(d, d));
  }

  /** Scaling a unit vector by `r` gives squared length `r²`. */
  lemma ScaledNorm(r: real, n: Vec)
    requires Norm2(n) == 1.0
    ensures Norm2(Scale(r, n)) == Mul(r, r)
  {
    var s := Scale(r, n);
    assert s.x == Mul(r, n.x) && s.y == Mul(r, n.y);
    Norm2Mul(s);
    Norm2Mul(n);
    SquareOfProduct(r, n.x);
    SquareOfProduct(r, n.y);
    MulComm(Mul(r, r), Mul(n.x, n.x));
    MulComm(Mul(r, r), Mul(n.y, n.y));
    MulDistrib(Mul(n.x, n.x), Mul(n.y, n.y), Mul(r, r));
    MulComm(Norm2(n), Mul(r, r));
    MulOne(Mul(r, r));
  }

  /** `s` times the direction of a non-zero `v` has length `s` when `s >= 0`. */
  lemma ScaledUnitNorm(sqrt: SqrtFn, s: real, v: Vec)
    requires IsSqrt(sqrt) && Norm(v, sqrt) != 0.0 && 0.0 <= s
    ensures Norm(Scale(s, Div(v, Norm(v, sqrt))), sqrt) == s
  {
    SqrtMul(sqrt, Norm2(v));
    DivUnit(v, Norm(v, sqrt));
    ScaledNorm(s, Div(v, Norm(v, sqrt)));
    SqrtOfMulSquare(sqrt, s);
  }

  lemma DivScaleBack(v: Vec, d: real)
    requires d != 0.0
    ensures Scale(d, Div(v, d)) == v
  {
  }

  lemma DivNeg(v: Vec, w: Vec, d: real)
    requires d != 0.0 && w.x == -v.x && w.y == -v.y
    ensures Div(w, d).x == -Div(v, d).x && Div(w, d).y == -Div(v, d).y
  {
  }

  lemma Norm2Swap(a: Body, b: Body)
    ensures Norm2(Sep(a, b)) == Norm2(Sep(b, a))
  {
  }

  /** The contact normal `(dx, dy) / distance` is a unit vector. */
  lemma NormalIsUnit(b1: Body, b2: Body, sqrt: SqrtFn)
    requires IsSqrt(sqrt) && Dist(b1, b2, sqrt) != 0.0
    ensures Norm2(Div(Sep(b1, b2), Dist(b1, b2, sqrt))) == 1.0
  {
    SqrtMul(sqrt, Norm2(Sep(b1, b2)));
    DivUnit(Sep(b1, b2), Dist(b1, b2, sqrt));
  }

  // --------------------------------------------------------------- gravity

  lemma PairAccelCoincident(bi: Body, bj: Body, sqrt: SqrtFn)
    requires IsSqrt(sqrt) && bj.x == bi.x && bj.y == bi.y
    ensures PairAccel(bi, bj, sqrt) == Vec(0.0, 0.0)
  {
    assert Sep(bj, bi) == Vec(0.0, 0.0);
    ZeroNorm(sqrt);
    PairAccelZeroDist(bi, bj, sqrt);
  }

  /** The mask `distances > 0`: a pair at distance 0 contributes nothing. */
  lemma PairAccelZeroDist(bi: Body, bj: Body, sqrt: SqrtFn)
    requires Norm(Sep(bj, bi), sqrt) == 0.0
    ensures PairAccel(bi, bj, sqrt) == Vec(0.0, 0.0)
  {
  }

  /** With every body of the list at the position of `bi` (alone, or only
      coincident), each contribution is masked out and the sum is zero. */
  lemma {:induction false} AccelSumCoincident(objs: seq<Body>, bi: Body, k: nat, sqrt: SqrtFn)
    requires IsSqrt(sqrt) && k <= |objs|
    requires forall j :: 0 <= j < |objs| ==> objs[j].x == bi.x && objs[j].y == bi.y
    ensures AccelSum(objs, bi, k, Gravity(sqrt)) == Vec(0.0, 0.0)
  {
    if k > 0 {
      AccelSumCoincident(objs, bi, k - 1, sqrt);
      PairAccelCoincident(bi, objs[k - 1], sqrt);
    }
  }

  /** A body with no other body at non-zero distance gets zero acceleration
      and keeps its velocity. */
  lemma LoneBodyKeepsVelocity(objs: seq<Body>, i: nat, dt: real, sqrt: SqrtFn)
    requires IsSqrt(sqrt) && i < |objs|
    requires forall j :: 0 <= j < |objs| ==> objs[j].x == objs[i].x && objs[j].y == objs[i].y
    ensures Accel(objs, i, Gravity(sqrt)) == Vec(0.0, 0.0)
    ensures VelocityStep(objs, dt, Gravity(sqrt))[i] == objs[i]
  {
    AccelSumCoincident(objs, objs[i], |objs|, sqrt);
    VelocityStepAt(objs, i, dt, Gravity(sqrt));
    KickZero(objs[i], dt);
  }

  lemma {:induction false} AccelsAt(objs: seq<Body>, k: nat, i: nat, law: Law)
    requires i < k <= |objs|
    ensures Accels(objs, k, law)[i] == Accel(objs, i, law)
  {
    if i < k - 1 {
      AccelsAt(objs, k - 1, i, law);
    }
  }

  /** Body `i` after the velocity pass: position, mass, radius and trail as
      before, and velocity `v_i + dt · a_i` where `a_i` is summed over the
      list as it was before any velocity was written. */
  lemma VelocityStepAt(objs: seq<Body>, i: nat, dt: real, law: Law)
    requires i < |objs|
    ensures VelocityStep(objs, dt, law)[i] == Kick(objs[i], Accel(objs, i, law), dt)
  {
    AccelsAt(objs, |objs|, i, law);
  }

  lemma KickZero(b: Body, dt: real)
    ensures Kick(b, Vec(0.0, 0.0), dt) == b
  {
  }

  lemma PairAccelShape(bi: Body, bj: Body, sqrt: SqrtFn)
    requires Norm(Sep(bj, bi), sqrt) > 0.0
    ensures var d := Norm(Sep(bj, bi), sqrt);
            PairAccel(bi, bj, sqrt)
              == Scale(Strength(bj.mass, Max(d, bi.radius + bj.radius)), Div(Sep(bj, bi), d))
  {
  }

  lemma StrengthMul(m: real, c: real)
    requires c != 0.0
    ensures Mul(c, c) != 0.0 && Strength(m, c) == Mul(G, m) / Mul(c, c)
  {
    MulSelfNonZero(c);
  }

  /** The strength is non-negative and falls as the clipped distance grows. */
  lemma StrengthAntitone(m: real, r: real, c: real)
    requires 0.0 <= m && 0.0 < r <= c
    ensures 0.0 <= Strength(m, c) <= Strength(m, r)
  {
    MulSquareMono(r, c);
    MulNonNeg(G, m);
    MulPos(r, r);
    StrengthMul(m, c);
    StrengthMul(m, r);
    DivAntitone(Mul(G, m), Mul(r, r), Mul(c, c));
  }

  lemma StrengthSwap(mi: real, mj: real, c: real)
    requires c != 0.0
    ensures Mul(mi, Strength(mj, c)) == Mul(mj, Strength(mi, c))
  {
  }

  /** The softening `max(d, r_i + r_j)` bounds every pairwise pull:
      `|a_ij| <= G·m_j / (r_i + r_j)²`. */
  lemma PairAccelBound(bi: Body, bj: Body, sqrt: SqrtFn)
    requires IsSqrt(sqrt) && 0.0 <= bj.mass && 0.0 < bi.radius + bj.radius
    ensures Norm(PairAccel(bi, bj, sqrt), sqrt) <= Strength(bj.mass, bi.radius + bj.radius)
  {
    if Norm(Sep(bj, bi), sqrt) > 0.0 {
      PairAccelBoundApart(bi, bj, sqrt);
    } else {
      PairAccelBoundCoincident(bi, bj, sqrt);
    }
  }

  lemma PairAccelBoundCoincident(bi: Body, bj: Body, sqrt: SqrtFn)
    requires IsSqrt(sqrt) && 0.0 <= bj.mass && 0.0 < bi.radius + bj.radius
    requires !(Norm(Sep(bj, bi), sqrt) > 0.0)
    ensures Norm(PairAccel(bi, bj, sqrt), sqrt) <= Strength(bj.mass, bi.radius + bj.radius)
  {
    PairAccelCoincidentNorm(bi, bj, sqrt);
    ContactStrengthNonNeg(bi, bj);
  }

  lemma PairAccelCoincidentNorm(bi: Body, bj: Body, sqrt: SqrtFn)
    requires IsSqrt(sqrt) && !(Norm(Sep(bj, bi), sqrt) > 0.0)
    ensures Norm(PairAccel(bi, bj, sqrt), sqrt) == 0.0
  {
    assert PairAccel(bi, bj, sqrt) == Vec(0.0, 0.0);
    ZeroNorm(sqrt);
  }

  lemma ContactStrengthNonNeg(bi: Body, bj: Body)
    requires 0.0 <= bj.mass && 0.0 < bi.radius + bj.radius
    ensures 0.0 <= Strength(bj.mass, bi.radius + bj.radius)
  {
    StrengthAntitone(bj.mass, bi.radius + bj.radius, bi.radius + bj.radius);
  }

  lemma PairAccelBoundApart(bi: Body, bj: Body, sqrt: SqrtFn)
    requires IsSqrt(sqrt) && 0.0 <= bj.mass && 0.0 < bi.radius + bj.radius
    requires Norm(Sep(bj, bi), sqrt) > 0.0
    ensures Norm(PairAccel(bi, bj, sqrt), sqrt) <= Strength(bj.mass, bi.radius + bj.radius)
  {
    var d := Norm(Sep(bj, bi), sqrt);
    var c := Max(d, bi.radius + bj.radius);
    StrengthAntitone(bj.mass, bi.radius + bj.radius, c);
    PairAccelShape(bi, bj, sqrt);
    ScaledUnitNorm(sqrt, Strength(bj.mass, c), Sep(bj, bi));
  }

  /** Newton's third law for the pulls: `m_i·a_ij == -(m_j·a_ji)`, with
      `Mul` the product. */
  lemma PairAccelOpposite(bi: Body, bj: Body, sqrt: SqrtFn)
    ensures Mul(bi.mass, PairAccel(bi, bj, sqrt).x) == -Mul(bj.mass, PairAccel(bj, bi, sqrt).x)
    ensures Mul(bi.mass, PairAccel(bi, bj, sqrt).y) == -Mul(bj.mass, PairAccel(bj, bi, sqrt).y)
  {
    Norm2Swap(bi, bj);
    if Norm(Sep(bj, bi), sqrt) > 0.0 {
      PairAccelOppositeApart(bi, bj, sqrt);
    }
  }

  lemma PairAccelOppositeApart(bi: Body, bj: Body, sqrt: SqrtFn)
    requires Norm(Sep(bj, bi), sqrt) > 0.0
    ensures Mul(bi.mass, PairAccel(bi, bj, sqrt).x) == -Mul(bj.mass, PairAccel(bj, bi, sqrt).x)
    ensures Mul(bi.mass, PairAccel(bi, bj, sqrt).y) == -Mul(bj.mass, PairAccel(bj, bi, sqrt).y)
  {
    var v, w := Sep(bj, bi), Sep(bi, bj);
    Norm2Swap(bi, bj);
    var d := Norm(v, sqrt);
    assert Norm(w, sqrt) == d;
    var c := Max(d, bi.radius + bj.radius);
    assert c == Max(d, bj.radius + bi.radius);
    var s1, s2 := Strength(bj.mass, c), Strength(bi.mass, c);
    var u, u2 := Div(v, d), Div(w, d);
    DivNeg(v, w, d);
    PairAccelShape(bi, bj, sqrt);
    PairAccelShape(bj, bi, sqrt);
    assert PairAccel(bi, bj, sqrt).x == Mul(s1, u.x) && PairAccel(bi, bj, sqrt).y == Mul(s1, u.y);
    assert PairAccel(bj, bi, sqrt).x == Mul(s2, u2.x) && PairAccel(bj, bi, sqrt).y == Mul(s2, u2.y);
    StrengthSwap(bi.mass, bj.mass, c);
    OppositeComponent(bi.mass, bj.mass, s1, s2, u.x, u2.x);
    OppositeComponent(bi.mass, bj.mass, s1, s2, u.y, u2.y);
  }

  /** One component of the third law: equal `m·s` weights on opposite
      directions give opposite forces. */
  lemma OppositeComponent(mi: real, mj: real, s1: real, s2: real, u: real, w: real)
    requires Mul(mi, s1) == Mul(mj, s2) && w == -u
    ensures Mul(mi, Mul(s1, u)) == -Mul(mj, Mul(s2, w))
  {
    MulAssoc(mi, s1, u);
    MulAssoc(mj, s2, w);
    MulNeg(Mul(mj, s2), u, w);
  }

  /** `max_acceleration` bounds every acceleration norm seen so far, is
      non-negative, and is one of them unless it is still the initial 0. */
  lemma {:induction false} MaxAccelSpec(objs: seq<Body>, k: nat, law: Law, sqrt: SqrtFn)
    requires k <= |objs|
    ensures 0.0 <= MaxAccel(objs, k, law, sqrt)
    ensures forall i :: 0 <= i < k ==> Norm(Accel(objs, i, law), sqrt) <= MaxAccel(objs, k, law, sqrt)
    ensures MaxAccel(objs, k, law, sqrt) == 0.0 ||
            exists i :: 0 <= i < k && MaxAccel(objs, k, law, sqrt) == Norm(Accel(objs, i, law), sqrt)
  {
    if k > 0 {
      MaxAccelSpec(objs, k - 1, law, sqrt);
    }
  }

  /** `np.max` of the speeds is the largest speed: an upper bound that is attained. */
  lemma {:induction false} MaxSpeedSpec(objs: seq<Body>, k: nat, sqrt: SqrtFn)
    requires 1 <= k <= |objs|
    ensures forall i :: 0 <= i < k ==> Norm(Vec(objs[i].vx, objs[i].vy), sqrt) <= MaxSpeed(objs, k, sqrt)
    ensures exists i :: 0 <= i < k && MaxSpeed(objs, k, sqrt) == Norm(Vec(objs[i].vx, objs[i].vy), sqrt)
  {
    if k > 1 {
      MaxSpeedSpec(objs, k - 1, sqrt);
    }
  }

  // ------------------------------------------------------------ collisions

  /** The contact response fires exactly when the bodies touch at non-zero
      distance (`0 < distance <= r1 + r2`) without separating
      (`v_rel <= 0`); otherwise the pair is left as it was, or the step
      is unspecified. */
  lemma ResolveCases(b1: Body, b2: Body, sqrt: SqrtFn)
    ensures Fires(b1, b2, sqrt) ==>
              var d := Dist(b1, b2, sqrt);
              Resolve(b1, b2, sqrt) == Some(Respond(b1, b2, Div(Sep(b1, b2), d), d))
    ensures !Fires(b1, b2, sqrt) && Resolve(b1, b2, sqrt).Some? ==>
              Resolve(b1, b2, sqrt).value == BodyPair(b1, b2)
    ensures Dist(b1, b2, sqrt) > b1.radius + b2.radius ==> Resolve(b1, b2, sqrt) == Some(BodyPair(b1, b2))
  {
  }

  /** The momentum components `m·vx` and `m·vy` of one body. */
  function MomX(b: Body): real {
    b.mass * b.vx
  }

  function MomY(b: Body): real {
    b.mass * b.vy
  }

  lemma MulDivCancel(m: real, v: real, a: real)
    requires m != 0.0
    ensures m * (v + a / m) == m * v + a
    ensures m * (v - a / m) == m * v - a
  {
  }

  /** The response keeps `m1·v1 + m2·v2`, `x1 + x2` and `y1 + y2`, and the
      masses, radii and trails of both bodies. */
  lemma RespondConserves(b1: Body, b2: Body, n: Vec, d: real)
    requires ImpulseDefined(b1, b2)
    ensures var p := Respond(b1, b2, n, d);
            MomX(p.first) + MomX(p.second) == MomX(b1) + MomX(b2) &&
            MomY(p.first) + MomY(p.second) == MomY(b1) + MomY(b2)
    ensures var p := Respond(b1, b2, n, d);
            p.first.x + p.second.x == b1.x + b2.x && p.first.y + p.second.y == b1.y + b2.y
    ensures var p := Respond(b1, b2, n, d);
            p.first.mass == b1.mass && p.second.mass == b2.mass &&
            p.first.radius == b1.radius && p.second.radius == b2.radius &&
            p.first.trail == b1.trail && p.second.trail == b2.trail
  {
    var k := Scale(Impulse(b1, b2, RelNormal(b1, b2, n)), n);
    MulDivCancel(b1.mass, b1.vx, k.x);
    MulDivCancel(b2.mass, b2.vx, k.x);
    MulDivCancel(b1.mass, b1.vy, k.y);
    MulDivCancel(b2.mass, b2.vy, k.y);
  }

  /** A contact step, fired or not, conserves the pair's momentum and
      the sum of its positions. */
  lemma ResolveConserves(b1: Body, b2: Body, sqrt: SqrtFn)
    requires Resolve(b1, b2, sqrt).Some?
    ensures var p := Resolve(b1, b2, sqrt).value;
            MomX(p.first) + MomX(p.second) == MomX(b1) + MomX(b2) &&
            MomY(p.first) + MomY(p.second) == MomY(b1) + MomY(b2)
    ensures var p := Resolve(b1, b2, sqrt).value;
            p.first.x + p.second.x == b1.x + b2.x && p.first.y + p.second.y == b1.y + b2.y
    ensures var p := Resolve(b1, b2, sqrt).value;
            p.first.mass == b1.mass && p.second.mass == b2.mass &&
            p.first.radius == b1.radius && p.second.radius == b2.radius &&
            p.first.trail == b1.trail && p.second.trail == b2.trail
  {
    ResolveCases(b1, b2, sqrt);
    if Fires(b1, b2, sqrt) {
      var d := Dist(b1, b2, sqrt);
      RespondConserves(b1, b2, Div(Sep(b1, b2), d), d);
    }
  }

  lemma DivMulBack(a: real, w: real)
    requires w != 0.0
    ensures Mul(a / w, w) == a
  {
  }

  /** `a / m1 + a / m2 == a · (1/m1 + 1/m2)`. */
  lemma InvMassSplit(a: real, b1: Body, b2: Body)
    requires b1.mass != 0.0 && b2.mass != 0.0
    ensures a / b1.mass + a / b2.mass == Mul(a, InvMassSum(b1, b2))
  {
  }

  /** The impulse divides out the summed inverse masses. */
  lemma ImpulseWeight(b1: Body, b2: Body, rel: real)
    requires ImpulseDefined(b1, b2)
    ensures Mul(Impulse(b1, b2, rel), InvMassSum(b1, b2)) == -(1.0 + COEFFICIENT_OF_RESTITUTION) * rel
  {
    DivMulBack(-(1.0 + COEFFICIENT_OF_RESTITUTION) * rel, InvMassSum(b1, b2));
  }

  /** The velocity difference after the response widens by `(j·n) · w`,
      with `j` the impulse and `w` the summed inverse masses. */
  lemma RespondVelocityGap(b1: Body, b2: Body, n: Vec, d: real)
    requires ImpulseDefined(b1, b2)
    ensures var p := Respond(b1, b2, n, d);
            var j := Impulse(b1, b2, RelNormal(b1, b2, n));
            p.first.vx - p.second.vx == (b1.vx - b2.vx) + Mul(Mul(j, n.x), InvMassSum(b1, b2)) &&
            p.first.vy - p.second.vy == (b1.vy - b2.vy) + Mul(Mul(j, n.y), InvMassSum(b1, b2))
  {
    var k := Scale(Impulse(b1, b2, RelNormal(b1, b2, n)), n);
    InvMassSplit(k.x, b1, b2);
    InvMassSplit(k.y, b1, b2);
  }

  /** A velocity difference widened by `(j·n_x)·w, (j·n_y)·w` gains `j·w`
      along the unit vector `n`. */
  lemma AlongUnit(b1: Body, b2: Body, q: BodyPair, n: Vec, j: real, w: real)
    requires Norm2(n) == 1.0
    requires q.first.vx - q.second.vx == (b1.vx - b2.vx) + Mul(Mul(j, n.x), w)
    requires q.first.vy - q.second.vy == (b1.vy - b2.vy) + Mul(Mul(j, n.y), w)
    ensures RelNormal(q.first, q.second, n) == RelNormal(b1, b2, n) + Mul(j, w)
  {
    assert RelNormal(q.first, q.second, n)
        == RelNormal(b1, b2, n) + Mul(j, w) * (n.x * n.x + n.y * n.y);
  }

  /** Along a unit normal the response turns the normal relative velocity
      into `-COEFFICIENT_OF_RESTITUTION` times what it was. */
  lemma RespondRestitution(b1: Body, b2: Body, n: Vec, d: real)
    requires ImpulseDefined(b1, b2)
    requires Norm2(n) == 1.0
    ensures var p := Respond(b1, b2, n, d);
            RelNormal(p.first, p.second, n) == -COEFFICIENT_OF_RESTITUTION * RelNormal(b1, b2, n)
  {
    RespondVelocityGap(b1, b2, n, d);
    AlongUnit(b1, b2, Respond(b1, b2, n, d), n, Impulse(b1, b2, RelNormal(b1, b2, n)), InvMassSum(b1, b2));
    ImpulseWeight(b1, b2, RelNormal(b1, b2, n));
  }

  /** When `b1 - b2 == d·n` the response leaves the centres `(r1 + r2)·n`
      apart: each body takes half of the overlap. */
  lemma RespondSeparation(b1: Body, b2: Body, n: Vec, d: real)
    requires ImpulseDefined(b1, b2)
    requires Sep(b1, b2) == Scale(d, n)
    ensures var p := Respond(b1, b2, n, d);
            Sep(p.first, p.second) == Scale(b1.radius + b2.radius, n)
  {
  }

  /** A fired contact leaves `v_rel' == -COR·v_rel` along the contact normal
      and the two centres exactly `r1 + r2` apart. */
  lemma ResolveRestitutionAndSeparation(b1: Body, b2: Body, sqrt: SqrtFn)
    requires IsSqrt(sqrt) && Fires(b1, b2, sqrt)
    ensures var n := Div(Sep(b1, b2), Dist(b1, b2, sqrt));
            var p := Resolve(b1, b2, sqrt).value;
            RelNormal(p.first, p.second, n) == -COEFFICIENT_OF_RESTITUTION * RelNormal(b1, b2, n)
    ensures var p := Resolve(b1, b2, sqrt).value;
            Dist(p.first, p.second, sqrt) == b1.radius + b2.radius
  {
    ResolveCases(b1, b2, sqrt);
    var d := Dist(b1, b2, sqrt);
    var n := Div(Sep(b1, b2), d);
    var r := b1.radius + b2.radius;
    NormalIsUnit(b1, b2, sqrt);
    RespondRestitution(b1, b2, n, d);
    DivScaleBack(Sep(b1, b2), d);
    RespondSeparation(b1, b2, n, d);
    ScaledNorm(r, n);
    SqrtFacts(sqrt, Norm2(Sep(b1, b2)));
    SqrtOfMulSquare(sqrt, r);
  }

  // ------------------------------------------------- whole-pass conservation

  /** Total momentum components and total mass of a list of bodies. */
  function MomentumX(objs: seq<Body>): real {
    if objs == [] then 0.0 else MomentumX(objs[..|objs| - 1]) + MomX(objs[|objs| - 1])
  }

  function MomentumY(objs: seq<Body>): real {
    if objs == [] then 0.0 else MomentumY(objs[..|objs| - 1]) + MomY(objs[|objs| - 1])
  }

  function TotalMass(objs: seq<Body>): real {
    if objs == [] then 0.0 else TotalMass(objs[..|objs| - 1]) + objs[|objs| - 1].mass
  }

  /** Replacing one body changes each total by the difference of its terms. */
  lemma {:induction false} TotalsUpdate(objs: seq<Body>, k: nat, b: Body)
    requires k < |objs|
    ensures MomentumX(objs[k := b]) == MomentumX(objs) - MomX(objs[k]) + MomX(b)
    ensures MomentumY(objs[k := b]) == MomentumY(objs) - MomY(objs[k]) + MomY(b)
    ensures TotalMass(objs[k := b]) == TotalMass(objs) - objs[k].mass + b.mass
  {
    var n := |objs|;
    var u := objs[k := b];
    if k == n - 1 {
      assert u[..n - 1] == objs[..n - 1];
    } else {
      assert u[..n - 1] == objs[..n - 1][k := b];
      TotalsUpdate(objs[..n - 1], k, b);
    }
  }

  /** Moving a body leaves every total unchanged. */
  lemma MoveKeepsTotals(objs: seq<Body>, i: nat, dt: real)
    requires i < |objs|
    ensures MomentumX(objs[i := Move(objs[i], dt)]) == MomentumX(objs)
    ensures MomentumY(objs[i := Move(objs[i], dt)]) == MomentumY(objs)
    ensures TotalMass(objs[i := Move(objs[i], dt)]) == TotalMass(objs)
  {
    TotalsUpdate(objs, i, Move(objs[i], dt));
  }

  /** Writing back a pair whose momentum and mass sums equal those of the
      bodies it replaces leaves every total unchanged. */
  lemma PairWriteKeepsTotals(objs: seq<Body>, i: nat, j: nat, p: BodyPair)
    requires i < |objs| && j < |objs| && i != j
    requires MomX(p.first) + MomX(p.second) == MomX(objs[i]) + MomX(objs[j])
    requires MomY(p.first) + MomY(p.second) == MomY(objs[i]) + MomY(objs[j])
    requires p.first.mass + p.second.mass == objs[i].mass + objs[j].mass
    ensures var o := objs[i := p.first][j := p.second];
            MomentumX(o) == MomentumX(objs) && MomentumY(o) == MomentumY(objs) &&
            TotalMass(o) == TotalMass(objs)
  {
    var u := objs[i := p.first];
    TotalsUpdate(objs, i, p.first);
    TotalsUpdate(u, j, p.second);
  }

  /** One contact step of the inner loop keeps every total. */
  lemma ResolveStepKeepsTotals(objs: seq<Body>, i: nat, j: nat, sqrt: SqrtFn)
    requires i < |objs| && j < |objs| && i != j && Resolve(objs[i], objs[j], sqrt).Some?
    ensures var p := Resolve(objs[i], objs[j], sqrt).value;
            var o := objs[i := p.first][j := p.second];
            MomentumX(o) == MomentumX(objs) && MomentumY(o) == MomentumY(objs) &&
            TotalMass(o) == TotalMass(objs)
  {
    ResolveConserves(objs[i], objs[j], sqrt);
    PairWriteKeepsTotals(objs, i, j, Resolve(objs[i], objs[j], sqrt).value);
  }

  lemma {:induction false} CollideFromKeepsTotals(objs: seq<Body>, i: nat, j: nat, sqrt: SqrtFn)
    requires i < |objs| && j <= |objs| && CollideFrom(objs, i, j, sqrt).Some?
    ensures var o := CollideFrom(objs, i, j, sqrt).value;
            MomentumX(o) == MomentumX(objs) && MomentumY(o) == MomentumY(objs) &&
            TotalMass(o) == TotalMass(objs)
    decreases |objs| - j
  {
    if j == |objs| {
    } else if j == i {
      CollideFromKeepsTotals(objs, i, j + 1, sqrt);
    } else {
      var p := Resolve(objs[i], objs[j], sqrt).value;
      ResolveStepKeepsTotals(objs, i, j, sqrt);
      CollideFromKeepsTotals(objs[i := p.first][j := p.second], i, j + 1, sqrt);
    }
  }

  lemma {:induction false} PositionsFromKeepsTotals(objs: seq<Body>, i: nat, dt: real, sqrt: SqrtFn)
    requires i <= |objs| && PositionsFrom(objs, i, dt, sqrt).Some?
    ensures var o := PositionsFrom(objs, i, dt, sqrt).value;
            |o| == |objs| && MomentumX(o) == MomentumX(objs) &&
            MomentumY(o) == MomentumY(objs) && TotalMass(o) == TotalMass(objs)
    decreases |objs| - i
  {
    if i < |objs| {
      var moved := objs[i := Move(objs[i], dt)];
      MoveKeepsTotals(objs, i, dt);
      CollideFromKeepsTotals(moved, i, 0, sqrt);
      PositionsFromKeepsTotals(CollideFrom(moved, i, 0, sqrt).value, i + 1, dt, sqrt);
    }
  }

  /** A position pass that is defined keeps the number of bodies, the
      total momentum and the total mass. */
  lemma PositionStepConserves(objs: seq<Body>, dt: real, sqrt: SqrtFn)
    requires PositionStep(objs, dt, sqrt).Some?
    ensures var o := PositionStep(objs, dt, sqrt).value;
            |o| == |objs| && MomentumX(o) == MomentumX(objs) &&
            MomentumY(o) == MomentumY(objs) && TotalMass(o) == TotalMass(objs)
  {
    PositionsFromKeepsTotals(objs, 0, dt, sqrt);
  }
}
