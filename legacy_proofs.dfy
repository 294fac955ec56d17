/** Properties of the root gravity_simulator_2.py model: the bands of the
    colour ramp and where it leaves the 8-bit range, the edit, drag and
    hit-test rules, the direction of the field, what the velocity pass
    reads, the wall bounce, and the conservation, restitution and exact
    separation of its collision response. */
module LegacyProofs {
  import opened Numerics
  import opened ScenePhysics
  import opened ScenePhysicsProofs
  import opened CoreVectorField
  import opened LegacyPhysics

  // ------------------------------------------------------------ colour ramp

  /** Red is 255 up to 0.333, green is 255 on `(0.166, 0.5]` and 0 above
      0.666, and on `[0, 0.166]` the colour is `(255, int(255·i/0.166), 0)`
      with green in range. */
  lemma IntensityBands(i: real)
    ensures i <= 0.333 ==> IntensityToColor(i).r == 255
    ensures 0.166 < i <= 0.5 ==> IntensityToColor(i).g == 255
    ensures 0.666 < i ==> IntensityToColor(i).g == 0
    ensures 0.0 <= i <= 0.166 ==>
              IntensityToColor(i) == Color(255, Trunc(255.0 * (i / 0.166)), 0) &&
              0 <= IntensityToColor(i).g <= 255
  {
    if 0.0 <= i <= 0.166 {
      assert 0.0 <= 255.0 * (i / 0.166) <= 255.0;
    }
  }

  /** The ramp as written leaves the 8-bit range: at 0.333 blue is 256, and
      at the top of the scale, 1.0, red is 313. */
  lemma IntensityOverflow()
    ensures IntensityToColor(0.333) == Color(255, 255, 256)
    ensures IntensityToColor(1.0) == Color(313, 0, 0)
    ensures !ColorInRange(IntensityToColor(0.333)) && !ColorInRange(IntensityToColor(1.0))
  {
    assert 255.0 * ((0.333 - 0.166) / 0.166) == 42585.0 / 166.0;
    assert Trunc(42585.0 / 166.0) == 256;
    assert (1.0 - 0.833) / 0.167 == 1.0;
  }

  /** The clamped ramp agrees with the written one wherever that one is in
      range, and it is in range everywhere. */
  lemma ClampedAgrees(i: real)
    ensures ColorInRange(ClampedIntensityToColor(i))
    ensures ColorInRange(IntensityToColor(i)) ==> ClampedIntensityToColor(i) == IntensityToColor(i)
    ensures ClampedIntensityToColor(1.0) == Color(255, 0, 0)
  {
    IntensityOverflow();
  }

  // ------------------------------------------------------- editing and drag

  /** A parsed mass becomes at least 1; a parsed radius lands in
      `[1, 100]`; a text that does not parse leaves the value alone. */
  lemma EditRules(mass: real, radius: real, m: Option<int>, r: Option<int>)
    ensures m.Some? ==> EditedMass(mass, m) == (if m.value >= 1 then m.value else 1) as real
    ensures m.Some? ==> 1.0 <= EditedMass(mass, m)
    ensures m.None? ==> EditedMass(mass, m) == mass
    ensures r.Some? ==> 1.0 <= EditedRadius(radius, r) <= 100.0
    ensures r.Some? && 1 <= r.value <= 100 ==> EditedRadius(radius, r) == r.value as real
    ensures r.None? ==> EditedRadius(radius, r) == radius
  {
  }

  /** While the field is at least a diameter wide the drag keeps the whole
      disc inside `[0, hi]`, and a cursor already far enough inside is
      followed exactly. */
  lemma DragInside(radius: real, hi: real, p: real)
    ensures radius <= hi - radius ==> radius <= DragTo(radius, hi, p) <= hi - radius
    ensures radius <= p <= hi - radius ==> DragTo(radius, hi, p) == p
    ensures hi - radius < radius ==> DragTo(radius, hi, p) == radius
  {
  }

  /** `handle_mouse_click` picks the first body in list order whose
      centre is closer than its radius; with no such body it picks none. */
  lemma {:induction false} FirstHitSpec(objs: seq<LBody>, k: nat, mx: real, my: real, sqrt: SqrtFn)
    requires k <= |objs|
    ensures var h := FirstHitFrom(objs, k, mx, my, sqrt);
            h.Some? ==> k <= h.value < |objs| && Hit(objs[h.value], mx, my, sqrt) &&
                        forall j :: k <= j < h.value ==> !Hit(objs[j], mx, my, sqrt)
    ensures FirstHitFrom(objs, k, mx, my, sqrt).None? <==>
              forall j :: k <= j < |objs| ==> !Hit(objs[j], mx, my, sqrt)
    decreases |objs| - k
  {
    if k < |objs| && !Hit(objs[k], mx, my, sqrt) {
      FirstHitSpec(objs, k + 1, mx, my, sqrt);
    }
  }

  /** A body from the random ranges of `add_object` is at rest, has
      `radius = mass/50` in `[0.2, 20]` and `shock_absorption = 0.001·mass`
      in `[0.01, 1]`, so a wall bounce never speeds it up. */
  lemma NewBodyRanges(x: int, y: int, mass: int)
    requires 10 <= mass <= 1000
    ensures var b := NewBody(x, y, mass);
            b.vx == 0.0 && b.vy == 0.0 && b.radius == mass as real / 50.0 &&
            0.2 <= b.radius <= 20.0 && 0.01 <= b.shock <= 1.0 && 0.0 <= 1.0 - b.shock < 1.0
  {
  }

  // ------------------------------------------------------------- the field

  /** A lattice point at a body's centre gets nothing from it: the zero
      distance is replaced by 0.1 and the offset is zero. */
  lemma FlowAtCentre(b: LBody, sqrt: SqrtFn)
    requires IsSqrt(sqrt)
    ensures Flow(b, b.x, b.y, sqrt) == Vec(0.0, 0.0)
  {
    SqrtZero(sqrt);
    FlowAtZeroOffset(b, sqrt);
  }

  lemma FlowAtZeroOffset(b: LBody, sqrt: SqrtFn)
    requires sqrt(0.0) == 0.0
    ensures Flow(b, b.x, b.y, sqrt) == Vec(0.0, 0.0)
  {
    var r := Vec(b.x - b.x, b.y - b.y);
    NormOfZero(r, sqrt);
    FlowOfZero(b.mass, r, sqrt);
  }

  lemma FlowOfZero(m: real, r: Vec, sqrt: SqrtFn)
    requires Norm(r, sqrt) == 0.0 && r.x == 0.0 && r.y == 0.0
    ensures FlowOf(m, r, sqrt) == Vec(0.0, 0.0)
  {
    FlowClipped(m, r, sqrt);
    StreamlineAtZero(m, r);
  }

  /** At distance 0 the divisor is 0.1. */
  lemma FlowClipped(m: real, r: Vec, sqrt: SqrtFn)
    requires Norm(r, sqrt) == 0.0
    ensures FlowOf(m, r, sqrt) == Streamline(m, r, 0.1)
  {
  }

  lemma StreamlineAtZero(m: real, r: Vec)
    requires r.x == 0.0 && r.y == 0.0
    ensures Streamline(m, r, 0.1) == Vec(0.0, 0.0)
  {
  }

  /** The field points toward the body: what is subtracted has a
      non-negative dot product with `(X - x, Y - y)`. */
  lemma FlowTowardBody(b: LBody, px: real, py: real, sqrt: SqrtFn)
    requires IsSqrt(sqrt) && 0.0 <= b.mass
    ensures var f := Flow(b, px, py, sqrt);
            0.0 <= f.x * (px - b.x) + f.y * (py - b.y)
  {
    var r := Vec(px - b.x, py - b.y);
    SqrtFacts(sqrt, Norm2(r));
    FlowOfAlong(b.mass, r, sqrt);
  }

  lemma FlowOfAlong(m: real, r: Vec, sqrt: SqrtFn)
    requires 0.0 <= Norm(r, sqrt) && 0.0 <= m
    ensures var f := FlowOf(m, r, sqrt);
            0.0 <= f.x * r.x + f.y * r.y
  {
    var dist := Norm(r, sqrt);
    if dist == 0.0 {
      StreamlineAlong(m, r, 0.1);
    } else {
      StreamlineAlong(m, r, dist);
    }
  }

  /** `(s·dx/d)·dx + (s·dy/d)·dy = (s/d)·|r|²`, non-negative. */
  lemma StreamlineAlong(m: real, r: Vec, d: real)
    requires 0.0 <= m && 0.0 < d
    ensures var f := Streamline(m, r, d);
            0.0 <= f.x * r.x + f.y * r.y
  {
    var s := m / (d * d);
    InverseSquareNonNeg(m, d);
    var k := s / d;
    assert 0.0 <= k;
    QuotientTimes(s, r.x, d);
    QuotientTimes(s, r.y, d);
    MulNonNeg(k, Mul(r.x, r.x));
    MulNonNeg(k, Mul(r.y, r.y));
  }

  /** `(s·a/d)·a == (s/d)·(a·a)`. */
  lemma QuotientTimes(s: real, a: real, d: real)
    requires d != 0.0
    ensures Mul(s * a / d, a) == Mul(s / d, Mul(a, a))
  {
  }

  lemma InverseSquareNonNeg(m: real, d: real)
    requires 0.0 <= m && 0.0 < d
    ensures 0.0 <= m / (d * d)
  {
    MulPos(d, d);
  }

  /** With no bodies the field is zero; one body contributes minus its flow. */
  lemma FieldAtSmall(b: LBody, px: real, py: real, rule: FlowRule)
    ensures FieldAt([], px, py, rule) == Vec(0.0, 0.0)
    ensures FieldAt([b], px, py, rule) == Vec(-rule(b, px, py).x, -rule(b, px, py).y)
  {
    assert [b][..0] == [];
  }

  // ---------------------------------------------------------- velocity pass

  /** The local field reads only positions and masses. */
  lemma {:induction false} LocalFieldSources(a: seq<LBody>, b: seq<LBody>, i: nat, k: nat, rule: PairRule)
    requires |a| == |b| && i < |a| && k <= |a|
    requires forall j :: 0 <= j < |a| ==> SourceOf(a[j]) == SourceOf(b[j])
    ensures LocalField(a, i, k, rule) == LocalField(b, i, k, rule)
  {
    if k > 0 {
      LocalFieldSources(a, b, i, k - 1, rule);
    }
  }

  /** The rule reads only the other body's mass, not the body's own. */
  ghost predicate IgnoresOwnMass(rule: PairRule) {
    forall p: Source, q: Source, o: Source :: p.x == q.x && p.y == q.y ==> rule(p, o) == rule(q, o)
  }

  /** A body on the same spot exerts nothing. */
  ghost predicate CoincidentFree(rule: PairRule) {
    forall p: Source, o: Source :: p.x == o.x && p.y == o.y ==> rule(p, o) == Vec(0.0, 0.0)
  }

  /** The source's pull reads only the other body's mass (line 284), and
      exerts nothing at distance 0 (line 283). */
  lemma NewtonianRule(sqrt: SqrtFn)
    requires IsSqrt(sqrt)
    ensures IgnoresOwnMass(Newtonian(sqrt))
    ensures CoincidentFree(Newtonian(sqrt))
  {
    forall p: Source, q: Source, o: Source | p.x == q.x && p.y == q.y
      ensures Attraction(p, o, sqrt) == Attraction(q, o, sqrt)
    {
      assert Vec(p.x - o.x, p.y - o.y) == Vec(q.x - o.x, q.y - o.y);
    }
    SqrtZero(sqrt);
    forall p: Source, o: Source | p.x == o.x && p.y == o.y
      ensures Attraction(p, o, sqrt) == Vec(0.0, 0.0)
    {
      AttractionCoincident(p, o, sqrt);
    }
  }

  lemma AttractionCoincident(p: Source, o: Source, sqrt: SqrtFn)
    requires sqrt(0.0) == 0.0 && p.x == o.x && p.y == o.y
    ensures Attraction(p, o, sqrt) == Vec(0.0, 0.0)
  {
    AttractionUnfold(p, o, sqrt);
    var r := Vec(p.x - o.x, p.y - o.y);
    NormOfZero(r, sqrt);
    AttractionOfNull(o.mass, r, sqrt);
  }

  lemma AttractionUnfold(p: Source, o: Source, sqrt: SqrtFn)
    ensures Attraction(p, o, sqrt) == AttractionOf(o.mass, Vec(p.x - o.x, p.y - o.y), sqrt)
  {
  }

  lemma AttractionOfNull(m: real, r: Vec, sqrt: SqrtFn)
    requires Norm(r, sqrt) == 0.0
    ensures AttractionOf(m, r, sqrt) == Vec(0.0, 0.0)
  {
  }

  /** The body's own mass never enters its local field: line 276 skips it. */
  lemma {:induction false} OwnMassIgnored(objs: seq<LBody>, i: nat, k: nat, m: real, rule: PairRule)
    requires i < |objs| && k <= |objs| && IgnoresOwnMass(rule)
    ensures LocalField(objs[i := objs[i].(mass := m)], i, k, rule) == LocalField(objs, i, k, rule)
  {
    if k > 0 {
      OwnMassIgnored(objs, i, k - 1, m, rule);
      var o := objs[i := objs[i].(mass := m)];
      if k - 1 != i {
        assert rule(SourceOf(o[i]), SourceOf(o[k - 1])) == rule(SourceOf(objs[i]), SourceOf(objs[k - 1]));
      }
    }
  }

  /** A body whose every other body sits on it feels no local field. */
  lemma {:induction false} LocalFieldCoincident(objs: seq<LBody>, i: nat, k: nat, rule: PairRule)
    requires CoincidentFree(rule) && i < |objs| && k <= |objs|
    requires forall j :: 0 <= j < |objs| ==> objs[j].x == objs[i].x && objs[j].y == objs[i].y
    ensures LocalField(objs, i, k, rule) == Vec(0.0, 0.0)
  {
    if k > 0 {
      LocalFieldCoincident(objs, i, k - 1, rule);
      if k - 1 != i {
        assert rule(SourceOf(objs[i]), SourceOf(objs[k - 1])) == Vec(0.0, 0.0);
      }
    }
  }

  /** The velocity pass only writes velocities, only of bodies whose grid
      cell lies inside the field, and adds `0.1 ×` the local field; a body
      alone, or with only coincident company, keeps its velocity. */
  lemma NudgePassSpec(objs: seq<LBody>, rows: int, cols: int, rule: PairRule)
    ensures var r := NudgePass(objs, rows, cols, rule);
            forall i :: 0 <= i < |objs| ==>
              SourceOf(r[i]) == SourceOf(objs[i]) && r[i].radius == objs[i].radius && r[i].shock == objs[i].shock
    ensures var r := NudgePass(objs, rows, cols, rule);
            forall i :: 0 <= i < |objs| && !InGrid(objs[i], rows, cols) ==> r[i] == objs[i]
    ensures var r := NudgePass(objs, rows, cols, rule);
            forall i :: 0 <= i < |objs| && InGrid(objs[i], rows, cols) ==>
              r[i].vx == objs[i].vx + LocalField(objs, i, |objs|, rule).x * 0.1 &&
              r[i].vy == objs[i].vy + LocalField(objs, i, |objs|, rule).y * 0.1
  {
  }

  lemma LoneBodyDrifts(objs: seq<LBody>, i: nat, rows: int, cols: int, sqrt: SqrtFn)
    requires IsSqrt(sqrt) && i < |objs|
    requires forall j :: 0 <= j < |objs| ==> objs[j].x == objs[i].x && objs[j].y == objs[i].y
    ensures NudgePass(objs, rows, cols, Newtonian(sqrt))[i] == objs[i]
  {
    NewtonianRule(sqrt);
    LoneBodyKeeps(objs, i, rows, cols, Newtonian(sqrt));
  }

  lemma LoneBodyKeeps(objs: seq<LBody>, i: nat, rows: int, cols: int, rule: PairRule)
    requires CoincidentFree(rule) && i < |objs|
    requires forall j :: 0 <= j < |objs| ==> objs[j].x == objs[i].x && objs[j].y == objs[i].y
    ensures NudgePass(objs, rows, cols, rule)[i] == objs[i]
  {
    LocalFieldCoincident(objs, i, |objs|, rule);
    NudgeZero(objs[i]);
  }

  lemma NudgeZero(b: LBody)
    ensures Nudge(b, Vec(0.0, 0.0)) == b
  {
  }

  // -------------------------------------------------------------- the walls

  /** The wall step changes an axis only when the disc pokes past that
      edge; it then reverses and damps the velocity and clamps the
      coordinate so the disc lies inside the field. */
  lemma WallsSpec(b: LBody)
    ensures var r := Walls(b);
            (!PokesOut(b.x, b.radius, FIELD_RIGHT) ==> r.x == b.x && r.vx == b.vx) &&
            (PokesOut(b.x, b.radius, FIELD_RIGHT) ==>
               r.vx == -b.vx * (1.0 - b.shock) && r.x == DragTo(b.radius, FIELD_RIGHT, b.x))
    ensures var r := Walls(b);
            (!PokesOut(b.y, b.radius, HEIGHT as real) ==> r.y == b.y && r.vy == b.vy) &&
            (PokesOut(b.y, b.radius, HEIGHT as real) ==>
               r.vy == -b.vy * (1.0 - b.shock) && r.y == DragTo(b.radius, HEIGHT as real, b.y))
    ensures 0.0 <= b.radius <= 300.0 ==>
              0.0 <= Walls(b).x - Walls(b).radius && Walls(b).x + Walls(b).radius <= FIELD_RIGHT &&
              0.0 <= Walls(b).y - Walls(b).radius && Walls(b).y + Walls(b).radius <= HEIGHT as real
    ensures Walls(b).mass == b.mass && Walls(b).radius == b.radius && Walls(b).shock == b.shock
  {
    DragInside(b.radius, FIELD_RIGHT, b.x);
    DragInside(b.radius, HEIGHT as real, b.y);
  }

  // ------------------------------------------------------------- collisions

  /** The response fires exactly when the discs overlap strictly at
      non-zero distance and are not separating; otherwise the pair is
      left alone, or the step is unspecified. */
  lemma LResolveCases(b1: LBody, b2: LBody, sqrt: SqrtFn)
    ensures LFires(b1, b2, sqrt) ==>
              var d := LDist(b1, b2, sqrt);
              LResolve(b1, b2, sqrt) == Some(LRespond(b1, b2, Div(LSep(b1, b2), d), d))
    ensures !LFires(b1, b2, sqrt) && LResolve(b1, b2, sqrt).Some? ==>
              LResolve(b1, b2, sqrt).value == LPair(b1, b2)
    ensures LDist(b1, b2, sqrt) >= b1.radius + b2.radius ==> LResolve(b1, b2, sqrt) == Some(LPair(b1, b2))
    ensures LResolve(b1, b2, sqrt).None? <==>
              LDist(b1, b2, sqrt) < b1.radius + b2.radius &&
              (LDist(b1, b2, sqrt) == 0.0 ||
               (LRelNormal(b1, b2, Div(LSep(b1, b2), LDist(b1, b2, sqrt))) <= 0.0 && !LImpulseDefined(b1, b2)))
  {
  }

  function LMomX(b: LBody): real {
    b.mass * b.vx
  }

  function LMomY(b: LBody): real {
    b.mass * b.vy
  }

  /** `m·x` and `m·y`, the mass-weighted position. */
  function WeightedX(b: LBody): real {
    b.mass * b.x
  }

  function WeightedY(b: LBody): real {
    b.mass * b.y
  }

  lemma ShiftMoment(m: real, v: real, a: real, sign: real)
    requires m != 0.0
    ensures m * (v + sign * (a / m)) == m * v + sign * a
  {
    assert m * (sign * (a / m)) == sign * a;
  }

  /** `m1·(m2/M) == m2·(m1/M)`: the two offsets carry equal weight. */
  lemma SplitBalance(m1: real, m2: real)
    requires m1 + m2 != 0.0
    ensures Mul(m1, m2 / (m1 + m2)) == Mul(m2, m1 / (m1 + m2))
  {
  }

  /** `m1·(nx·o·w2) == m2·(nx·o·w1)` when `m1·w2 == m2·w1`. */
  lemma WeightedAxis(m1: real, m2: real, nx: real, ov: real, w2: real, w1: real)
    requires Mul(m1, w2) == Mul(m2, w1)
    ensures Mul(m1, nx * ov * w2) == Mul(m2, nx * ov * w1)
  {
    assert Mul(m1, nx * ov * w2) == Mul(nx * ov, Mul(m1, w2));
    assert Mul(m2, nx * ov * w1) == Mul(nx * ov, Mul(m2, w1));
  }

  /** The response keeps `m1·v1 + m2·v2` and `m1·p1 + m2·p2`. */
  lemma LRespondConserves(b1: LBody, b2: LBody, n: Vec, d: real)
    requires LImpulseDefined(b1, b2)
    ensures var p := LRespond(b1, b2, n, d);
            LMomX(p.first) + LMomX(p.second) == LMomX(b1) + LMomX(b2) &&
            LMomY(p.first) + LMomY(p.second) == LMomY(b1) + LMomY(b2)
    ensures var p := LRespond(b1, b2, n, d);
            WeightedX(p.first) + WeightedX(p.second) == WeightedX(b1) + WeightedX(b2) &&
            WeightedY(p.first) + WeightedY(p.second) == WeightedY(b1) + WeightedY(b2)
  {
    LRespondMomentum(b1, b2, n, d);
    LRespondWeighted(b1, b2, n, d);
  }

  lemma LRespondMomentum(b1: LBody, b2: LBody, n: Vec, d: real)
    requires LImpulseDefined(b1, b2)
    ensures var p := LRespond(b1, b2, n, d);
            LMomX(p.first) + LMomX(p.second) == LMomX(b1) + LMomX(b2) &&
            LMomY(p.first) + LMomY(p.second) == LMomY(b1) + LMomY(b2)
  {
    var k := Scale(LImpulse(b1, b2, LRelNormal(b1, b2, n)), n);
    ShiftMoment(b1.mass, b1.vx, k.x, 1.0);
    ShiftMoment(b2.mass, b2.vx, k.x, -1.0);
    ShiftMoment(b1.mass, b1.vy, k.y, 1.0);
    ShiftMoment(b2.mass, b2.vy, k.y, -1.0);
  }

  lemma LRespondWeighted(b1: LBody, b2: LBody, n: Vec, d: real)
    requires LImpulseDefined(b1, b2)
    ensures var p := LRespond(b1, b2, n, d);
            WeightedX(p.first) + WeightedX(p.second) == WeightedX(b1) + WeightedX(b2) &&
            WeightedY(p.first) + WeightedY(p.second) == WeightedY(b1) + WeightedY(b2)
  {
    var k := Scale(LImpulse(b1, b2, LRelNormal(b1, b2, n)), n);
    var overlap := b1.radius + b2.radius - d;
    var t := b1.mass + b2.mass;
    var a2 := Along(n, overlap, b2.mass / t);
    var a1 := Along(n, overlap, b1.mass / t);
    AlongBalance(b1.mass, b2.mass, n, overlap);
    ShiftWeighted(b1, b2, Div(k, b1.mass), Div(k, b2.mass), a2, a1);
  }

  /** `m1·(n·o·(m2/M)) == m2·(n·o·(m1/M))` on both axes. */
  lemma AlongBalance(m1: real, m2: real, n: Vec, ov: real)
    requires m1 + m2 != 0.0
    ensures var t := m1 + m2;
            Mul(m1, Along(n, ov, m2 / t).x) == Mul(m2, Along(n, ov, m1 / t).x) &&
            Mul(m1, Along(n, ov, m2 / t).y) == Mul(m2, Along(n, ov, m1 / t).y)
  {
    var t := m1 + m2;
    SplitBalance(m1, m2);
    WeightedAxis(m1, m2, n.x, ov, m2 / t, m1 / t);
    WeightedAxis(m1, m2, n.y, ov, m2 / t, m1 / t);
  }

  /** Opposite shifts with `m1·dp1 == m2·dp2` keep `m1·p1 + m2·p2`. */
  lemma ShiftWeighted(b1: LBody, b2: LBody, dv1: Vec, dv2: Vec, dp1: Vec, dp2: Vec)
    requires Mul(b1.mass, dp1.x) == Mul(b2.mass, dp2.x) && Mul(b1.mass, dp1.y) == Mul(b2.mass, dp2.y)
    ensures WeightedX(Shift(b1, dv1, dp1, 1.0)) + WeightedX(Shift(b2, dv2, dp2, -1.0)) == WeightedX(b1) + WeightedX(b2)
    ensures WeightedY(Shift(b1, dv1, dp1, 1.0)) + WeightedY(Shift(b2, dv2, dp2, -1.0)) == WeightedY(b1) + WeightedY(b2)
  {
    MulDistrib(b1.x, dp1.x, b1.mass);
    MulDistrib(b2.x, -dp2.x, b2.mass);
    MulDistrib(b1.y, dp1.y, b1.mass);
    MulDistrib(b2.y, -dp2.y, b2.mass);
  }

  /** Along a unit normal the response leaves `v_rel' == energy_loss · v_rel`. */
  lemma LRespondRestitution(b1: LBody, b2: LBody, n: Vec, d: real)
    requires LImpulseDefined(b1, b2) && Norm2(n) == 1.0
    ensures var p := LRespond(b1, b2, n, d);
            LRelNormal(p.first, p.second, n) == EnergyLoss(b1, b2) * LRelNormal(b1, b2, n)
  {
    var rel := LRelNormal(b1, b2, n);
    var j := LImpulse(b1, b2, rel);
    var w := 1.0 / b1.mass + 1.0 / b2.mass;
    var p := LRespond(b1, b2, n, d);
    LVelocityGap(b1, b2, n, d);
    LAlongUnit(b1, b2, p, n, j, w);
    DivMulBack(-(1.0 - EnergyLoss(b1, b2)) * rel, w);
  }

  /** The velocity difference widens by `(j·n)·(1/m1 + 1/m2)`. */
  lemma LVelocityGap(b1: LBody, b2: LBody, n: Vec, d: real)
    requires LImpulseDefined(b1, b2)
    ensures var p := LRespond(b1, b2, n, d);
            var j := LImpulse(b1, b2, LRelNormal(b1, b2, n));
            var w := 1.0 / b1.mass + 1.0 / b2.mass;
            p.first.vx - p.second.vx == (b1.vx - b2.vx) + Mul(Mul(j, n.x), w) &&
            p.first.vy - p.second.vy == (b1.vy - b2.vy) + Mul(Mul(j, n.y), w)
  {
    var j := LImpulse(b1, b2, LRelNormal(b1, b2, n));
    var k := Scale(j, n);
    InverseSum(k.x, b1.mass, b2.mass);
    InverseSum(k.y, b1.mass, b2.mass);
  }

  lemma InverseSum(a: real, m1: real, m2: real)
    requires m1 != 0.0 && m2 != 0.0
    ensures a / m1 + a / m2 == Mul(a, 1.0 / m1 + 1.0 / m2)
  {
    MulDistrib(1.0 / m1, 1.0 / m2, a);
  }

  lemma LAlongUnit(b1: LBody, b2: LBody, q: LPair, n: Vec, j: real, w: real)
    requires Norm2(n) == 1.0
    requires q.first.vx - q.second.vx == (b1.vx - b2.vx) + Mul(Mul(j, n.x), w)
    requires q.first.vy - q.second.vy == (b1.vy - b2.vy) + Mul(Mul(j, n.y), w)
    ensures LRelNormal(q.first, q.second, n) == LRelNormal(b1, b2, n) + Mul(j, w)
  {
    assert LRelNormal(q.first, q.second, n)
        == LRelNormal(b1, b2, n) + Mul(j, w) * (n.x * n.x + n.y * n.y);
  }

  lemma FractionsSum(m1: real, m2: real)
    requires m1 + m2 != 0.0
    ensures m2 / (m1 + m2) + m1 / (m1 + m2) == 1.0
  {
  }

  /** When `b1 - b2 == d·n` the response leaves the centres `(r1 + r2)·n`
      apart. */
  lemma LRespondSeparation(b1: LBody, b2: LBody, n: Vec, d: real)
    requires LImpulseDefined(b1, b2) && LSep(b1, b2) == Scale(d, n)
    ensures var p := LRespond(b1, b2, n, d);
            LSep(p.first, p.second) == Scale(b1.radius + b2.radius, n)
  {
    var t := b1.mass + b2.mass;
    var c := b1.radius + b2.radius - d;
    AxisClosed(b1.x, b2.x, n.x, d, c, b2.mass / t, b1.mass / t);
    AxisClosed(b1.y, b2.y, n.y, d, c, b2.mass / t, b1.mass / t);
    FractionsSum(b1.mass, b2.mass);
  }

  /** One axis: `(p1 + nx·c·w2) - (p2 - nx·c·w1) == (d + c)·nx` when
      `p1 - p2 == d·nx` and `w1 + w2 == 1`. */
  lemma AxisClosed(p1: real, p2: real, nx: real, d: real, c: real, w2: real, w1: real)
    requires p1 - p2 == d * nx && w2 + w1 == 1.0
    ensures (p1 + 1.0 * (nx * c * w2)) - (p2 + -1.0 * (nx * c * w1)) == (d + c) * nx
  {
    MulDistrib(w2, w1, nx * c);
  }

  /** A fired contact leaves `v_rel' == energy_loss · v_rel` along the
      normal and the centres exactly `r1 + r2` apart. */
  lemma LResolveRestitutionAndSeparation(b1: LBody, b2: LBody, sqrt: SqrtFn)
    requires IsSqrt(sqrt) && LFires(b1, b2, sqrt)
    ensures var n := Div(LSep(b1, b2), LDist(b1, b2, sqrt));
            var p := LResolve(b1, b2, sqrt).value;
            LRelNormal(p.first, p.second, n) == EnergyLoss(b1, b2) * LRelNormal(b1, b2, n)
    ensures var p := LResolve(b1, b2, sqrt).value;
            LDist(p.first, p.second, sqrt) == b1.radius + b2.radius
  {
    LResolveCases(b1, b2, sqrt);
    var d := LDist(b1, b2, sqrt);
    var n := Div(LSep(b1, b2), d);
    var r := b1.radius + b2.radius;
    LNormalIsUnit(b1, b2, sqrt);
    LRespondRestitution(b1, b2, n, d);
    DivScaleBack(LSep(b1, b2), d);
    LRespondSeparation(b1, b2, n, d);
    ScaledNorm(r, n);
    SqrtFacts(sqrt, Norm2(LSep(b1, b2)));
    SqrtOfMulSquare(sqrt, r);
  }

  lemma LNormalIsUnit(b1: LBody, b2: LBody, sqrt: SqrtFn)
    requires IsSqrt(sqrt) && LDist(b1, b2, sqrt) != 0.0
    ensures Norm2(Div(LSep(b1, b2), LDist(b1, b2, sqrt))) == 1.0
  {
    SqrtMul(sqrt, Norm2(LSep(b1, b2)));
    DivUnit(LSep(b1, b2), LDist(b1, b2, sqrt));
  }

  /** A contact step that does not divide by zero conserves the pair's
      momentum and mass-weighted position, and keeps masses, radii and
      shock absorptions. */
  lemma LResolveConserves(b1: LBody, b2: LBody, sqrt: SqrtFn)
    requires LResolve(b1, b2, sqrt).Some?
    ensures var p := LResolve(b1, b2, sqrt).value;
            LMomX(p.first) + LMomX(p.second) == LMomX(b1) + LMomX(b2) &&
            LMomY(p.first) + LMomY(p.second) == LMomY(b1) + LMomY(b2) &&
            WeightedX(p.first) + WeightedX(p.second) == WeightedX(b1) + WeightedX(b2) &&
            WeightedY(p.first) + WeightedY(p.second) == WeightedY(b1) + WeightedY(b2)
    ensures var p := LResolve(b1, b2, sqrt).value;
            p.first.mass == b1.mass && p.second.mass == b2.mass &&
            p.first.radius == b1.radius && p.second.radius == b2.radius &&
            p.first.shock == b1.shock && p.second.shock == b2.shock
  {
    LResolveCases(b1, b2, sqrt);
    if LFires(b1, b2, sqrt) {
      var d := LDist(b1, b2, sqrt);
      LRespondConserves(b1, b2, Div(LSep(b1, b2), d), d);
    }
  }

  // ------------------------------------------------------ the whole pass

  /** Same length, and every body keeps its mass, radius and shock
      absorption. */
  predicate SameBuild(a: seq<LBody>, b: seq<LBody>) {
    |a| == |b| &&
    forall k :: 0 <= k < |a| ==> a[k].mass == b[k].mass && a[k].radius == b[k].radius && a[k].shock == b[k].shock
  }

  lemma {:induction false} LCollideFromBuild(objs: seq<LBody>, i: nat, j: nat, sqrt: SqrtFn)
    requires i < |objs| && j <= |objs|
    requires LCollideFrom(objs, i, j, sqrt).Some?
    ensures SameBuild(objs, LCollideFrom(objs, i, j, sqrt).value)
    decreases |objs| - j
  {
    if j < |objs| {
      if j == i {
        LCollideFromBuild(objs, i, j + 1, sqrt);
      } else {
        var p := LResolve(objs[i], objs[j], sqrt).value;
        LResolveConserves(objs[i], objs[j], sqrt);
        var o := objs[i := p.first][j := p.second];
        LCollideFromBuild(o, i, j + 1, sqrt);
      }
    }
  }

  lemma {:induction false} LPositionsFromBuild(objs: seq<LBody>, i: nat, sqrt: SqrtFn)
    requires i <= |objs|
    requires LPositionsFrom(objs, i, sqrt).Some?
    ensures SameBuild(objs, LPositionsFrom(objs, i, sqrt).value)
    decreases |objs| - i
  {
    if i < |objs| {
      var moved := objs[i := Stepped(objs[i])];
      LCollideFromBuild(moved, i, 0, sqrt);
      var o := LCollideFrom(moved, i, 0, sqrt).value;
      LPositionsFromBuild(o, i + 1, sqrt);
    }
  }

  /** `update_object_positions` keeps the number of bodies and each body's
      mass, radius and shock absorption. */
  lemma LPositionStepBuild(objs: seq<LBody>, sqrt: SqrtFn)
    requires LPositionStep(objs, sqrt).Some?
    ensures SameBuild(objs, LPositionStep(objs, sqrt).value)
  {
    LPositionsFromBuild(objs, 0, sqrt);
  }
}
