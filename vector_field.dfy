/** The field sampler of core/vector_field.py: a lattice of screen points,
    converted to world coordinates through the camera, at each of which the
    pulls `G·m / d²` of every body are superposed with the distance `d`
    clipped below at the body's radius. Floating-point NaN, which numpy
    produces when a clipped distance is 0, is `None`. */
module CoreVectorField {
  import opened Numerics
  import opened Config
  import opened CoreCamera
  import opened ScenePhysics
  import opened ScenePhysicsProofs
  import opened CoreScene

  // ---------------------------------------------------------------- lattice

  /** `np.arange(start, stop, step)` on integers. numpy refuses a zero step. */
  function Arange(start: int, stop: int, step: int): (r: seq<int>)
    requires step != 0
    decreases if step > 0 then stop - start else start - stop
  {
    if (step > 0 && start < stop) || (step < 0 && stop < start) then [start] + Arange(start + step, stop, step)
    else []
  }

  /** `np.arange` is the arithmetic progression from `start` by `step` that
      stays strictly before `stop`, and it stops at the first value that
      would not. */
  lemma {:induction false} ArangeSpec(start: int, stop: int, step: int)
    requires step != 0
    ensures var r := Arange(start, stop, step);
            |r| > 0 ==> r[0] == start
    ensures var r := Arange(start, stop, step);
            forall k :: 0 <= k < |r| - 1 ==> r[k + 1] == r[k] + step
    ensures var r := Arange(start, stop, step);
            forall k :: 0 <= k < |r| ==> if step > 0 then start <= r[k] < stop else stop < r[k] <= start
    ensures var r := Arange(start, stop, step);
            |r| == 0 <==> (if step > 0 then stop <= start else start <= stop)
    ensures var r := Arange(start, stop, step);
            |r| > 0 ==> if step > 0 then stop <= r[|r| - 1] + step else r[|r| - 1] + step <= stop
    decreases if step > 0 then stop - start else start - stop
  {
    if (step > 0 && start < stop) || (step < 0 && stop < start) {
      ArangeSpec(start + step, stop, step);
      var t := Arange(start + step, stop, step);
      assert Arange(start, stop, step) == [start] + t;
    }
  }

  /** The sample columns: `np.arange(SIDEBAR_WIDTH, WINDOW_WIDTH - SIDEBAR_WIDTH, spacing)`. */
  function ScreenX(spacing: int): seq<int>
    requires spacing != 0
  {
    Arange(SIDEBAR_WIDTH, WINDOW_WIDTH - SIDEBAR_WIDTH, spacing)
  }

  /** The sample rows: `np.arange(0, WINDOW_HEIGHT, spacing)`. */
  function ScreenY(spacing: int): seq<int>
    requires spacing != 0
  {
    Arange(0, WINDOW_HEIGHT, spacing)
  }

  /** With the simulator's spacing `GRID_SIZE` the columns are
      `200, 220, …, 980` and the rows `0, 20, …, 680`. */
  lemma LatticeAtGridSize()
    ensures |ScreenX(GRID_SIZE)| == 40 && |ScreenY(GRID_SIZE)| == 35
    ensures ScreenX(GRID_SIZE)[0] == 200 && ScreenX(GRID_SIZE)[39] == 980
    ensures ScreenY(GRID_SIZE)[0] == 0 && ScreenY(GRID_SIZE)[34] == 680
  {
    ArangeSpec(SIDEBAR_WIDTH, WINDOW_WIDTH - SIDEBAR_WIDTH, GRID_SIZE);
    ArangeSpec(0, WINDOW_HEIGHT, GRID_SIZE);
    ArangeLength(SIDEBAR_WIDTH, WINDOW_WIDTH - SIDEBAR_WIDTH, GRID_SIZE, 40);
    ArangeLength(0, WINDOW_HEIGHT, GRID_SIZE, 35);
  }

  /** With a positive step, entry `k` is `start + k·step`, so the progression
      has `n` entries when `start + (n-1)·step < stop <= start + n·step`. */
  lemma {:induction false} ArangeLength(start: int, stop: int, step: int, n: nat)
    requires step > 0 && start + (n - 1) * step < stop <= start + n * step
    ensures |Arange(start, stop, step)| == n
    ensures forall k :: 0 <= k < n ==> Arange(start, stop, step)[k] == start + k * step
    decreases n
  {
    if n > 0 {
      assert start < stop;
      assert (start + step) + (n - 2) * step == start + (n - 1) * step;
      assert (start + step) + (n - 1) * step == start + n * step;
      ArangeLength(start + step, stop, step, n - 1);
      var t := Arange(start + step, stop, step);
      assert Arange(start, stop, step) == [start] + t;
      forall k | 0 < k < n
        ensures Arange(start, stop, step)[k] == start + k * step
      {
        assert Arange(start, stop, step)[k] == t[k - 1];
        assert (start + step) + (k - 1) * step == start + k * step;
      }
    } else {
      assert stop <= start;
    }
  }

  // ------------------------------------------------------------------ field

  /** What body `b` subtracts from `(U, V)` at the world point `(wx, wy)`:
      `accel · (dx, dy) / distance` with `accel = G·m / distance²` and the
      distance clipped below at the radius; NaN when that distance is 0. */
  function Term(b: Body, wx: real, wy: real, sqrt: SqrtFn): Option<Vec> {
    PullAt(b.mass, b.radius, Vec(wx - b.x, wy - b.y), sqrt)
  }

  /** The pull of mass `m` with radius `radius` at offset `r` from its centre. */
  function PullAt(m: real, radius: real, r: Vec, sqrt: SqrtFn): Option<Vec> {
    var d := Max(Norm(r, sqrt), radius);
    if d == 0.0 then None else Some(Scale(Strength(m, d), Div(r, d)))
  }

  /** What each body subtracts at a world point. The sampler is stated for
      any such rule; the simulator's is `Gravitational(sqrt)`. */
  type Pull = (Body, real, real) -> Option<Vec>

  function Gravitational(sqrt: SqrtFn): Pull {
    (b: Body, wx: real, wy: real) => Term(b, wx, wy, sqrt)
  }

  /** `f - t` componentwise, NaN absorbing. */
  function Minus(f: Option<Vec>, t: Option<Vec>): Option<Vec> {
    if f.Some? && t.Some? then Some(Vec(f.value.x - t.value.x, f.value.y - t.value.y)) else None
  }

  /** `f + g` componentwise, NaN absorbing. */
  function Plus(f: Option<Vec>, g: Option<Vec>): Option<Vec> {
    if f.Some? && g.Some? then Some(Vec(f.value.x + g.value.x, f.value.y + g.value.y)) else None
  }

  /** `(U, V)` at one sample point after the loop over `objs`, from zero. */
  function Field(objs: seq<Body>, wx: real, wy: real, pull: Pull): Option<Vec>
    decreases |objs|
  {
    if |objs| == 0 then Some(Vec(0.0, 0.0))
    else Minus(Field(objs[..|objs| - 1], wx, wy, pull), pull(objs[|objs| - 1], wx, wy))
  }

  /** The `x` and `y` entries of a field value. */
  function XOf(f: Option<Vec>): Option<real> {
    if f.Some? then Some(f.value.x) else None
  }

  function YOf(f: Option<Vec>): Option<real> {
    if f.Some? then Some(f.value.y) else None
  }

  /** `U[i, j] -= t.x`, NaN absorbing. */
  function SubX(u: Option<real>, t: Option<Vec>): Option<real> {
    if u.Some? && t.Some? then Some(u.value - t.value.x) else None
  }

  function SubY(v: Option<real>, t: Option<Vec>): Option<real> {
    if v.Some? && t.Some? then Some(v.value - t.value.y) else None
  }

  /** The field of a concatenation is the sum of the fields of its parts. */
  lemma {:induction false} FieldConcat(a: seq<Body>, b: seq<Body>, wx: real, wy: real, pull: Pull)
    ensures Field(a + b, wx, wy, pull) == Plus(Field(a, wx, wy, pull), Field(b, wx, wy, pull))
    decreases |b|
  {
    if |b| == 0 {
      assert a + b == a;
    } else {
      var b' := b[..|b| - 1];
      assert (a + b)[..|a + b| - 1] == a + b';
      assert (a + b)[|a + b| - 1] == b[|b| - 1];
      FieldConcat(a, b', wx, wy, pull);
    }
  }

  /** The field does not depend on the order of the bodies: moving a block
      from the front to the back changes nothing. */
  lemma FieldCommute(a: seq<Body>, b: seq<Body>, wx: real, wy: real, pull: Pull)
    ensures Field(a + b, wx, wy, pull) == Field(b + a, wx, wy, pull)
  {
    FieldConcat(a, b, wx, wy, pull);
    FieldConcat(b, a, wx, wy, pull);
  }

  /** Nor does exchanging two neighbours anywhere in the list. */
  lemma FieldSwap(p: seq<Body>, x: Body, y: Body, q: seq<Body>, wx: real, wy: real, pull: Pull)
    ensures Field(p + [x, y] + q, wx, wy, pull) == Field(p + [y, x] + q, wx, wy, pull)
  {
    FieldConcat(p + [x, y], q, wx, wy, pull);
    FieldConcat(p + [y, x], q, wx, wy, pull);
    FieldConcat(p, [x, y], wx, wy, pull);
    FieldConcat(p, [y, x], wx, wy, pull);
    FieldCommute([x], [y], wx, wy, pull);
  }

  /** With a positive radius the clipped distance is positive, so no NaN
      arises, and the pull is at most `G·m / radius²`. */
  lemma TermBound(b: Body, wx: real, wy: real, sqrt: SqrtFn)
    requires IsSqrt(sqrt) && 0.0 <= b.mass && 0.0 < b.radius
    ensures Term(b, wx, wy, sqrt).Some?
    ensures Norm(Term(b, wx, wy, sqrt).value, sqrt) <= Strength(b.mass, b.radius)
  {
    var r := Vec(wx - b.x, wy - b.y);
    var n := Norm(r, sqrt);
    var d := Max(n, b.radius);
    SqrtFacts(sqrt, Norm2(r));
    SqrtMul(sqrt, Norm2(r));
    StrengthAntitone(b.mass, b.radius, d);
    ClippedPullBound(r, Strength(b.mass, d), n, d, sqrt);
  }

  /** Dividing by a clipped distance `d >= |r|` gives a vector of length at
      most 1, so scaling it by `s >= 0` gives length at most `s`. */
  lemma ClippedPullBound(r: Vec, s: real, n: real, d: real, sqrt: SqrtFn)
    requires IsSqrt(sqrt) && 0.0 <= s && 0.0 <= n <= d && 0.0 < d && Mul(n, n) == Norm2(r)
    ensures Norm(Scale(s, Div(r, d)), sqrt) <= s
  {
    var w := Div(r, d);
    DivShrinks(r, n, d);
    ScaleNorm2(s, w);
    MulNonNeg(s, s);
    MulLe(Norm2(w), 1.0, Mul(s, s));
    MulComm(Mul(s, s), 1.0);
    MulOne(Mul(s, s));
    SqrtBelow(sqrt, Norm2(Scale(s, w)), s);
  }

  /** `|r / d|² <= 1` when `|r| = n <= d`. */
  lemma DivShrinks(r: Vec, n: real, d: real)
    requires 0.0 <= n <= d && 0.0 < d && Mul(n, n) == Norm2(r)
    ensures Norm2(Div(r, d)) <= 1.0
  {
    var w := Div(r, d);
    MulDivBack(r.x, d);
    MulDivBack(r.y, d);
    assert Mul(w.x, d) == r.x && Mul(w.y, d) == r.y;
    SquareOfProduct(w.x, d);
    SquareOfProduct(w.y, d);
    Norm2Mul(r);
    Norm2Mul(w);
    MulDistrib(Mul(w.x, w.x), Mul(w.y, w.y), Mul(d, d));
    MulSquareMono(n, d);
    MulPos(d, d);
    AtMostOne(Norm2(w), Mul(d, d));
  }

  lemma MulLe(a: real, b: real, c: real)
    requires a <= b && 0.0 <= c
    ensures Mul(c, a) <= Mul(c, b)
  {
    MulMono(a, b, c);
  }

  lemma AtMostOne(a: real, e: real)
    requires 0.0 < e && Mul(a, e) <= e
    ensures a <= 1.0
  {
    if a > 1.0 {
      MulStrictRight(1.0, a, e);
    }
  }

  /** `|s·w|² = s²·|w|²`. */
  lemma ScaleNorm2(s: real, w: Vec)
    ensures Norm2(Scale(s, w)) == Mul(Mul(s, s), Norm2(w))
  {
    var t := Scale(s, w);
    assert t.x == Mul(s, w.x) && t.y == Mul(s, w.y);
    Norm2Mul(t);
    Norm2Mul(w);
    SquareOfProduct(s, w.x);
    SquareOfProduct(s, w.y);
    MulComm(Mul(s, s), Mul(w.x, w.x));
    MulComm(Mul(s, s), Mul(w.y, w.y));
    MulDistrib(Mul(w.x, w.x), Mul(w.y, w.y), Mul(s, s));
    MulComm(Norm2(w), Mul(s, s));
  }

  /** `sqrt(x) <= s` when `0 <= x <= s²` and `s >= 0`. */
  lemma SqrtBelow(sqrt: SqrtFn, x: real, s: real)
    requires IsSqrt(sqrt) && 0.0 <= x && 0.0 <= s && x <= Mul(s, s)
    ensures sqrt(x) <= s
  {
    SqrtFacts(sqrt, x);
    if s < sqrt(x) {
      SquareLess(s, sqrt(x));
    }
  }

  /** A sample exactly at the centre of a body with positive radius gets
      nothing from it, and no NaN. */
  lemma TermAtCentre(b: Body, sqrt: SqrtFn)
    requires IsSqrt(sqrt) && 0.0 < b.radius
    ensures Term(b, b.x, b.y, sqrt) == Some(Vec(0.0, 0.0))
  {
    SqrtZero(sqrt);
    TermAtZeroOffset(b, sqrt);
  }

  lemma TermAtZeroOffset(b: Body, sqrt: SqrtFn)
    requires sqrt(0.0) == 0.0 && 0.0 < b.radius
    ensures Term(b, b.x, b.y, sqrt) == Some(Vec(0.0, 0.0))
  {
    var r := Vec(b.x - b.x, b.y - b.y);
    NormOfZero(r, sqrt);
    PullAtCentre(b.mass, b.radius, r, sqrt);
  }

  lemma NormOfZero(r: Vec, sqrt: SqrtFn)
    requires sqrt(0.0) == 0.0 && r.x == 0.0 && r.y == 0.0
    ensures Norm(r, sqrt) == 0.0
  {
    assert Norm2(r) == 0.0;
  }

  lemma PullAtCentre(m: real, radius: real, r: Vec, sqrt: SqrtFn)
    requires 0.0 < radius && Norm(r, sqrt) == 0.0 && r.x == 0.0 && r.y == 0.0
    ensures PullAt(m, radius, r, sqrt) == Some(Vec(0.0, 0.0))
  {
    PullAtRadius(m, radius, r, sqrt);
    ScaleOfZero(Strength(m, radius), r, radius);
  }

  /** Within the radius the distance is clipped to the radius itself. */
  lemma PullAtRadius(m: real, radius: real, r: Vec, sqrt: SqrtFn)
    requires 0.0 < radius && Norm(r, sqrt) == 0.0
    ensures PullAt(m, radius, r, sqrt) == Some(Scale(Strength(m, radius), Div(r, radius)))
  {
  }

  lemma ScaleOfZero(s: real, r: Vec, d: real)
    requires 0.0 < d && r.x == 0.0 && r.y == 0.0
    ensures Scale(s, Div(r, d)) == Vec(0.0, 0.0)
  {
  }

  /** The pull points from the sample toward the body: what is subtracted
      has a non-negative dot product with `(X - obj.x, Y - obj.y)`. */
  lemma TermTowardBody(b: Body, wx: real, wy: real, sqrt: SqrtFn)
    requires IsSqrt(sqrt) && 0.0 <= b.mass
    requires Term(b, wx, wy, sqrt).Some?
    ensures var t := Term(b, wx, wy, sqrt).value;
            0.0 <= t.x * (wx - b.x) + t.y * (wy - b.y)
  {
    var r := Vec(wx - b.x, wy - b.y);
    var d := Max(Norm(r, sqrt), b.radius);
    SqrtFacts(sqrt, Norm2(r));
    assert 0.0 < d;
    var s := Strength(b.mass, d);
    StrengthNonNeg(b.mass, d);
    AlongSelf(s, r, d);
  }

  lemma StrengthNonNeg(m: real, d: real)
    requires 0.0 <= m && 0.0 < d
    ensures 0.0 <= Strength(m, d)
  {
    MulPos(d, d);
    MulNonNeg(G, m);
    StrengthMul(m, d);
  }

  /** `s·(r/d)·r = (s/d)·|r|² >= 0` for `s >= 0` and `d > 0`. */
  lemma AlongSelf(s: real, r: Vec, d: real)
    requires 0.0 <= s && 0.0 < d
    ensures var t := Scale(s, Div(r, d));
            0.0 <= t.x * r.x + t.y * r.y
  {
    var k := s / d;
    assert 0.0 <= k;
    MulDivBack(s, d);
    var t := Scale(s, Div(r, d));
    assert t.x == Mul(k, r.x) by {
      assert s * (r.x / d) == (s / d) * r.x;
    }
    assert t.y == Mul(k, r.y) by {
      assert s * (r.y / d) == (s / d) * r.y;
    }
    assert Mul(k, r.x) * r.x == Mul(k, Mul(r.x, r.x));
    assert Mul(k, r.y) * r.y == Mul(k, Mul(r.y, r.y));
    MulNonNeg(k, Mul(r.x, r.x));
    MulNonNeg(k, Mul(r.y, r.y));
  }

  // ---------------------------------------------------------------- sampler

  /** `U -= accel·(dx / distance)` and `V -= accel·(dy / distance)` for one
      body, entry by entry. */
  method SubtractBody(u: array2<Option<real>>, v: array2<Option<real>>,
                      wx: array2<real>, wy: array2<real>, b: Body, pull: Pull)
    requires u != v
    requires v.Length0 == u.Length0 && wx.Length0 == u.Length0 && wy.Length0 == u.Length0
    requires v.Length1 == u.Length1 && wx.Length1 == u.Length1 && wy.Length1 == u.Length1
    modifies u, v
    ensures forall i, j :: 0 <= i < u.Length0 && 0 <= j < u.Length1 ==>
              u[i, j] == SubX(old(u[i, j]), pull(b, wx[i, j], wy[i, j])) &&
              v[i, j] == SubY(old(v[i, j]), pull(b, wx[i, j], wy[i, j]))
  {
    var i := 0;
    while i < u.Length0
      invariant 0 <= i <= u.Length0
      invariant forall i', j :: 0 <= i' < i && 0 <= j < u.Length1 ==>
                  u[i', j] == SubX(old(u[i', j]), pull(b, wx[i', j], wy[i', j])) &&
                  v[i', j] == SubY(old(v[i', j]), pull(b, wx[i', j], wy[i', j]))
      invariant forall i', j :: i <= i' < u.Length0 && 0 <= j < u.Length1 ==>
                  u[i', j] == old(u[i', j]) && v[i', j] == old(v[i', j])
    {
      SubtractBodyRow(u, v, wx, wy, b, pull, i);
      i := i + 1;
    }
  }

  /** One row `i` of the lattice in `SubtractBody`; the other rows keep their values. */
  method SubtractBodyRow(u: array2<Option<real>>, v: array2<Option<real>>,
                         wx: array2<real>, wy: array2<real>, b: Body, pull: Pull, i: nat)
    requires u != v && i < u.Length0
    requires v.Length0 == u.Length0 && wx.Length0 == u.Length0 && wy.Length0 == u.Length0
    requires v.Length1 == u.Length1 && wx.Length1 == u.Length1 && wy.Length1 == u.Length1
    modifies u, v
    ensures forall j :: 0 <= j < u.Length1 ==>
              u[i, j] == SubX(old(u[i, j]), pull(b, wx[i, j], wy[i, j])) &&
              v[i, j] == SubY(old(v[i, j]), pull(b, wx[i, j], wy[i, j]))
    ensures forall i', j :: 0 <= i' < u.Length0 && i' != i && 0 <= j < u.Length1 ==>
              u[i', j] == old(u[i', j]) && v[i', j] == old(v[i', j])
  {
    var j := 0;
    while j < u.Length1
      invariant 0 <= j <= u.Length1
      invariant forall j' :: 0 <= j' < j ==>
                  u[i, j'] == SubX(old(u[i, j']), pull(b, wx[i, j'], wy[i, j'])) &&
                  v[i, j'] == SubY(old(v[i, j']), pull(b, wx[i, j'], wy[i, j']))
      invariant forall j' :: j <= j' < u.Length1 ==> u[i, j'] == old(u[i, j']) && v[i, j'] == old(v[i, j'])
      invariant forall i', j' :: 0 <= i' < u.Length0 && i' != i && 0 <= j' < u.Length1 ==>
                  u[i', j'] == old(u[i', j']) && v[i', j'] == old(v[i', j'])
    {
      var t := pull(b, wx[i, j], wy[i, j]);
      u[i, j] := SubX(u[i, j], t);
      v[i, j] := SubY(v[i, j], t);
      j := j + 1;
    }
  }

  /** `np.meshgrid(xs, ys)`: row `i`, column `j` holds `(xs[j], ys[i])`. */
  method Meshgrid(xs: seq<int>, ys: seq<int>) returns (sx: array2<int>, sy: array2<int>)
    ensures fresh(sx) && fresh(sy)
    ensures sx.Length0 == |ys| && sx.Length1 == |xs| && sy.Length0 == |ys| && sy.Length1 == |xs|
    ensures forall i, j :: 0 <= i < |ys| && 0 <= j < |xs| ==> sx[i, j] == xs[j] && sy[i, j] == ys[i]
  {
    sx := new int[|ys|, |xs|]((i: int, j: int) requires 0 <= j < |xs| => xs[j]);
    sy := new int[|ys|, |xs|]((i: int, j: int) requires 0 <= i < |ys| => ys[i]);
  }

  /** `camera.screen_to_world(SX, SY)` applied entry by entry. */
  method ScreenToWorldGrid(camera: Camera, sx: array2<int>, sy: array2<int>)
    returns (wx: array2<real>, wy: array2<real>)
    requires camera.PixelsPerMeter() != 0.0
    requires sy.Length0 == sx.Length0 && sy.Length1 == sx.Length1
    ensures fresh(wx) && fresh(wy)
    ensures wx.Length0 == sx.Length0 && wx.Length1 == sx.Length1
    ensures wy.Length0 == sx.Length0 && wy.Length1 == sx.Length1
    ensures forall i, j :: 0 <= i < sx.Length0 && 0 <= j < sx.Length1 ==>
              (wx[i, j], wy[i, j]) == camera.ScreenToWorld(sx[i, j] as real, sy[i, j] as real)
  {
    var xOffset, yOffset, p := camera.xOffset, camera.yOffset, camera.PixelsPerMeter();
    wx := new real[sx.Length0, sx.Length1]((i: int, j: int) reads sx
                requires 0 <= i < sx.Length0 && 0 <= j < sx.Length1 => (sx[i, j] as real - xOffset) / p);
    wy := new real[sx.Length0, sx.Length1]((i: int, j: int) reads sy
                requires 0 <= i < sy.Length0 && 0 <= j < sy.Length1 => (sy[i, j] as real - yOffset) / p);
  }

  /** `U` and `V` from zeros, then the loop `for obj in objects` with its
      whole-array subtractions. */
  method Superpose(objs: seq<Body>, wx: array2<real>, wy: array2<real>, pull: Pull)
    returns (u: array2<Option<real>>, v: array2<Option<real>>)
    requires wy.Length0 == wx.Length0 && wy.Length1 == wx.Length1
    ensures fresh(u) && fresh(v)
    ensures u.Length0 == wx.Length0 && v.Length0 == wx.Length0
    ensures u.Length1 == wx.Length1 && v.Length1 == wx.Length1
    ensures forall i, j :: 0 <= i < wx.Length0 && 0 <= j < wx.Length1 ==>
              u[i, j] == XOf(Field(objs, wx[i, j], wy[i, j], pull)) &&
              v[i, j] == YOf(Field(objs, wx[i, j], wy[i, j], pull))
  {
    u := new Option<real>[wx.Length0, wx.Length1]((i: int, j: int) => Some(0.0));
    v := new Option<real>[wx.Length0, wx.Length1]((i: int, j: int) => Some(0.0));
    var k := 0;
    while k < |objs|
      invariant 0 <= k <= |objs|
      invariant forall i, j :: 0 <= i < wx.Length0 && 0 <= j < wx.Length1 ==>
                  u[i, j] == XOf(Field(objs[..k], wx[i, j], wy[i, j], pull)) &&
                  v[i, j] == YOf(Field(objs[..k], wx[i, j], wy[i, j], pull))
    {
      SubtractBody(u, v, wx, wy, objs[k], pull);
      assert objs[..k + 1][..k] == objs[..k];
      k := k + 1;
    }
    assert objs[..k] == objs;
  }

  class VectorField {
    const gridSpacingPx: int
    const scene: Scene
    const camera: Camera

    constructor (gridSpacingPx: int, scene: Scene, camera: Camera)
      ensures this.gridSpacingPx == gridSpacingPx && this.scene == scene && this.camera == camera
    {
      this.gridSpacingPx := gridSpacingPx;
      this.scene := scene;
      this.camera := camera;
    }

    /** `generate`: the screen lattice `(SX, SY)` and the field `(U, V)` at
        the world point under each lattice point, for the pull rule `pull`
        (the source's is `Gravitational(sqrt)`). It has no `modifies`
        clause: the scene and the camera are only read. */
    method Generate(pull: Pull)
      returns (sx: array2<int>, sy: array2<int>, u: array2<Option<real>>, v: array2<Option<real>>)
      requires gridSpacingPx != 0 && camera.PixelsPerMeter() != 0.0
      ensures fresh(sx) && fresh(sy) && fresh(u) && fresh(v)
      ensures sx.Length0 == |ScreenY(gridSpacingPx)| && sx.Length1 == |ScreenX(gridSpacingPx)|
      ensures sy.Length0 == sx.Length0 && u.Length0 == sx.Length0 && v.Length0 == sx.Length0
      ensures sy.Length1 == sx.Length1 && u.Length1 == sx.Length1 && v.Length1 == sx.Length1
      ensures forall i, j :: 0 <= i < sx.Length0 && 0 <= j < sx.Length1 ==>
                sx[i, j] == ScreenX(gridSpacingPx)[j] && sy[i, j] == ScreenY(gridSpacingPx)[i]
      ensures forall i, j :: 0 <= i < sx.Length0 && 0 <= j < sx.Length1 ==>
                var w := camera.ScreenToWorld(sx[i, j] as real, sy[i, j] as real);
                u[i, j] == XOf(Field(scene.objects, w.0, w.1, pull)) &&
                v[i, j] == YOf(Field(scene.objects, w.0, w.1, pull))
      ensures |scene.objects| == 0 ==>
                forall i, j :: 0 <= i < u.Length0 && 0 <= j < u.Length1 ==> u[i, j] == Some(0.0) && v[i, j] == Some(0.0)
    {
      sx, sy := Meshgrid(ScreenX(gridSpacingPx), ScreenY(gridSpacingPx));
      var wx, wy := ScreenToWorldGrid(camera, sx, sy);
      u, v := Superpose(scene.objects, wx, wy, pull);
    }
  }
}
