/** The older single-file simulator, gravity_simulator_2.py at the root of
    the repository: its own window constants, its body record, the heat-map
    colour ramp, the edit and drag rules, and its physics, which has a
    collision law of its own (strict contact test, `1 - mean shock`
    restitution, mass-weighted overlap split, wall bounces). */
module LegacyPhysics {
  import opened Numerics
  import opened ScenePhysics

  const WIDTH: int := 800
  const HEIGHT: int := 600
  const TOOLBAR_WIDTH: int := 200
  const GRID_SIZE: int := 20

  /** Right edge of the playing field, left of the toolbar. */
  const FIELD_RIGHT: real := (WIDTH - TOOLBAR_WIDTH) as real

  /** An object dict: position, velocity, mass, radius and
      `shock_absorption`. */
  datatype LBody = LBody(x: real, y: real, vx: real, vy: real, mass: real, radius: real, shock: real)

  datatype LPair = LPair(first: LBody, second: LBody)

  // ------------------------------------------------------------ colour ramp

  datatype Color = Color(r: int, g: int, b: int)

  /** `intensity_to_color` as written: six linear bands, each channel cut
      with `int(...)`. */
  function IntensityToColor(i: real): Color {
    if i <= 0.166 then
      Color(255, Trunc(255.0 * (i / 0.166)), 0)
    else if i <= 0.333 then
      Color(255, 255, Trunc(255.0 * ((i - 0.166) / 0.166)))
    else if i <= 0.5 then
      Color(Trunc(255.0 * (1.0 - (i - 0.333) / 0.167)), 255, 0)
    else if i <= 0.666 then
      var ratio := (i - 0.5) / 0.166;
      Color(0, Trunc(255.0 * (1.0 - ratio)), Trunc(255.0 * ratio))
    else if i <= 0.833 then
      Color(Trunc(75.0 * ((i - 0.666) / 0.166)), 0, 255)
    else
      var ratio := (i - 0.833) / 0.167;
      Color(Trunc(238.0 * ratio + 75.0), 0, Trunc(255.0 * (1.0 - ratio)))
  }

  /** Each channel is a valid 8-bit colour component. */
  predicate ColorInRange(c: Color) {
    0 <= c.r <= 255 && 0 <= c.g <= 255 && 0 <= c.b <= 255
  }

  function Channel(v: int): int {
    MaxInt(0, MinInt(255, v))
  }

  /** The ramp with every channel clamped into `[0, 255]`. */
  function ClampedIntensityToColor(i: real): (c: Color)
    ensures ColorInRange(c)
  {
    var raw := IntensityToColor(i);
    Color(Channel(raw.r), Channel(raw.g), Channel(raw.b))
  }

  // ------------------------------------------------------- editing and drag

  /** `max(1, int(mass_input))` on a successful parse, else unchanged. */
  function EditedMass(mass: real, parsed: Option<int>): real {
    if parsed.Some? then MaxInt(1, parsed.value) as real else mass
  }

  /** The radius text capped at 100, then `max(1, radius)`; unchanged when
      the text does not parse. */
  function EditedRadius(radius: real, parsed: Option<int>): real {
    if parsed.Some? then MaxInt(1, if parsed.value > 100 then 100 else parsed.value) as real else radius
  }

  /** `max(radius, min(hi - radius, p))`, the drag clamp on one axis. */
  function DragTo(radius: real, hi: real, p: real): real {
    Max(radius, Min(hi - radius, p))
  }

  /** The distance test of `handle_mouse_click`. */
  predicate Hit(b: LBody, mx: real, my: real, sqrt: SqrtFn) {
    sqrt((mx - b.x) * (mx - b.x) + (my - b.y) * (my - b.y)) < b.radius
  }

  /** The first body from index `k` on that the click hits. */
  function FirstHitFrom(objs: seq<LBody>, k: nat, mx: real, my: real, sqrt: SqrtFn): Option<nat>
    requires k <= |objs|
    decreases |objs| - k
  {
    if k == |objs| then None
    else if Hit(objs[k], mx, my, sqrt) then Some(k)
    else FirstHitFrom(objs, k + 1, mx, my, sqrt)
  }

  /** The body `add_object` appends for the drawn `x`, `y` and `mass`. */
  function NewBody(x: int, y: int, mass: int): LBody {
    LBody(x as real, y as real, 0.0, 0.0, mass as real, mass as real / 50.0, 0.001 * mass as real)
  }

  // ------------------------------------------------------------- the field

  /** What one body takes away from `(U, V)` at a lattice point of
      `generate_vector_field`. */
  function Flow(b: LBody, px: real, py: real, sqrt: SqrtFn): Vec {
    FlowOf(b.mass, Vec(px - b.x, py - b.y), sqrt)
  }

  /** The contribution for the offset `r = (dx, dy)`: a zero distance is
      replaced by 0.1. */
  function FlowOf(m: real, r: Vec, sqrt: SqrtFn): Vec {
    var dist := Norm(r, sqrt);
    if dist == 0.0 then Streamline(m, r, 0.1) else Streamline(m, r, dist)
  }

  /** `flow_strength · dx / distance` with `flow_strength = mass /
      distance²`, in the source's order of operations. */
  function Streamline(m: real, r: Vec, d: real): Vec
    requires d != 0.0
  {
    var s := m / (d * d);
    Vec(s * r.x / d, s * r.y / d)
  }

  type FlowRule = (LBody, real, real) -> Vec

  function InverseSquare(sqrt: SqrtFn): FlowRule {
    (b: LBody, px: real, py: real) => Flow(b, px, py, sqrt)
  }

  /** `(U, V)` at one point after the loop over `objs`, from zero. */
  function FieldAt(objs: seq<LBody>, px: real, py: real, rule: FlowRule): Vec
    decreases |objs|
  {
    if objs == [] then Vec(0.0, 0.0)
    else
      var f := FieldAt(objs[..|objs| - 1], px, py, rule);
      var c := rule(objs[|objs| - 1], px, py);
      Vec(f.x - c.x, f.y - c.y)
  }

  // ---------------------------------------------------------- velocity pass

  /** What the velocity pass reads of a body: position and mass. */
  datatype Source = Source(x: real, y: real, mass: real)

  function SourceOf(b: LBody): Source {
    Source(b.x, b.y, b.mass)
  }

  /** What `other` takes away from `obj`'s local field. */
  function Attraction(obj: Source, other: Source, sqrt: SqrtFn): Vec {
    AttractionOf(other.mass, Vec(obj.x - other.x, obj.y - other.y), sqrt)
  }

  /** `strength · (dx, dy) / distance` with `strength = m / distance²` for
      the offset `r = (dx, dy) = obj - other`; nothing at distance 0. */
  function AttractionOf(m: real, r: Vec, sqrt: SqrtFn): Vec {
    var d := Norm(r, sqrt);
    if d > 0.0 then Scale(m / (d * d), Div(r, d)) else Vec(0.0, 0.0)
  }

  type PairRule = (Source, Source) -> Vec

  function Newtonian(sqrt: SqrtFn): PairRule {
    (obj: Source, other: Source) => Attraction(obj, other, sqrt)
  }

  /** `(local_U, local_V)` of body `i` after the inner loop has seen
      `objs[..k]`: every other body subtracts its pull; `i` itself is
      skipped. */
  function LocalField(objs: seq<LBody>, i: nat, k: nat, rule: PairRule): Vec
    requires i < |objs| && k <= |objs|
  {
    if k == 0 then Vec(0.0, 0.0)
    else
      var f := LocalField(objs, i, k - 1, rule);
      if k - 1 == i then f
      else
        var c := rule(SourceOf(objs[i]), SourceOf(objs[k - 1]));
        Vec(f.x - c.x, f.y - c.y)
  }

  /** `gx = int(x // GRID_SIZE)`, `gy` likewise, inside the `rows × cols`
      shape of `U`. */
  predicate InGrid(b: LBody, rows: int, cols: int) {
    var gx := (b.x / GRID_SIZE as real).Floor;
    var gy := (b.y / GRID_SIZE as real).Floor;
    0 <= gx < cols && 0 <= gy < rows
  }

  /** `vx += local_U * 0.1; vy += local_V * 0.1`. */
  function Nudge(b: LBody, f: Vec): (r: LBody)
    ensures SourceOf(r) == SourceOf(b) && r.radius == b.radius && r.shock == b.shock
  {
    b.(vx := b.vx + f.x * 0.1, vy := b.vy + f.y * 0.1)
  }

  /** Body `i` after its turn of `update_object_velocities`. */
  function NudgedAt(objs: seq<LBody>, i: nat, rows: int, cols: int, rule: PairRule): LBody
    requires i < |objs|
  {
    if InGrid(objs[i], rows, cols) then Nudge(objs[i], LocalField(objs, i, |objs|, rule)) else objs[i]
  }

  /** `update_object_velocities` on the list as it was on entry. */
  function NudgePass(objs: seq<LBody>, rows: int, cols: int, rule: PairRule): (r: seq<LBody>)
    ensures |r| == |objs|
  {
    seq(|objs|, i requires 0 <= i < |objs| => NudgedAt(objs, i, rows, cols, rule))
  }

  // ---------------------------------------------------------- position pass

  /** `x += vx; y += vy`: one step per frame, no time step. */
  function Advance(b: LBody): (r: LBody)
    ensures r.vx == b.vx && r.vy == b.vy && r.mass == b.mass && r.radius == b.radius && r.shock == b.shock
  {
    b.(x := b.x + b.vx, y := b.y + b.vy)
  }

  /** The wall test on one axis with the field `[0, hi]`. */
  predicate PokesOut(p: real, radius: real, hi: real) {
    p - radius < 0.0 || p + radius > hi
  }

  /** `v *= -1; v *= (1 - shock)`. */
  function Bounce(v: real, shock: real): real {
    -v * (1.0 - shock)
  }

  /** The two wall checks of `update_object_positions`. */
  function Walls(b: LBody): (r: LBody)
    ensures r.mass == b.mass && r.radius == b.radius && r.shock == b.shock
  {
    var bx := if PokesOut(b.x, b.radius, FIELD_RIGHT)
              then b.(vx := Bounce(b.vx, b.shock), x := DragTo(b.radius, FIELD_RIGHT, b.x)) else b;
    if PokesOut(bx.y, bx.radius, HEIGHT as real)
    then bx.(vy := Bounce(bx.vy, bx.shock), y := DragTo(bx.radius, HEIGHT as real, bx.y)) else bx
  }

  function LSep(a: LBody, b: LBody): Vec {
    Vec(a.x - b.x, a.y - b.y)
  }

  function LDist(a: LBody, b: LBody, sqrt: SqrtFn): real {
    Norm(LSep(a, b), sqrt)
  }

  /** `v_rel`: the relative velocity `v1 - v2` along `n`. */
  function LRelNormal(b1: LBody, b2: LBody, n: Vec): real {
    (b1.vx - b2.vx) * n.x + (b1.vy - b2.vy) * n.y
  }

  /** No division by zero in the response: non-zero masses, a non-zero
      `1/m1 + 1/m2`, and (which follows from those) a non-zero combined
      mass. */
  predicate LImpulseDefined(b1: LBody, b2: LBody) {
    b1.mass != 0.0 && b2.mass != 0.0 && 1.0 / b1.mass + 1.0 / b2.mass != 0.0 && b1.mass + b2.mass != 0.0
  }

  /** `energy_loss`, the mean of the two shock absorptions. */
  function EnergyLoss(b1: LBody, b2: LBody): real {
    (b1.shock + b2.shock) / 2.0
  }

  /** `-(1 - energy_loss) · v_rel / (1/m1 + 1/m2)`. */
  function LImpulse(b1: LBody, b2: LBody, rel: real): real
    requires LImpulseDefined(b1, b2)
  {
    -(1.0 - EnergyLoss(b1, b2)) * rel / (1.0 / b1.mass + 1.0 / b2.mass)
  }

  /** The velocity change `impulse·n / m` and the position offset
      `n · overlap · (m_other / combined_mass)`. */
  function Shift(b: LBody, dv: Vec, dp: Vec, sign: real): (r: LBody)
    ensures r.mass == b.mass && r.radius == b.radius && r.shock == b.shock
  {
    b.(vx := b.vx + sign * dv.x, vy := b.vy + sign * dv.y, x := b.x + sign * dp.x, y := b.y + sign * dp.y)
  }

  /** `n · overlap · w` componentwise. */
  function Along(n: Vec, overlap: real, w: real): Vec {
    Vec(n.x * overlap * w, n.y * overlap * w)
  }

  /** The response of lines 333-355 with unit normal `n` at distance `d`. */
  function LRespond(b1: LBody, b2: LBody, n: Vec, d: real): LPair
    requires LImpulseDefined(b1, b2)
  {
    var k := Scale(LImpulse(b1, b2, LRelNormal(b1, b2, n)), n);
    var overlap := b1.radius + b2.radius - d;
    var total := b1.mass + b2.mass;
    LPair(Shift(b1, Div(k, b1.mass), Along(n, overlap, b2.mass / total), 1.0),
          Shift(b2, Div(k, b2.mass), Along(n, overlap, b1.mass / total), -1.0))
  }

  /** The pair step of lines 311-355 for `obj = b1`, `other = b2`. `None`
      leaves the step unspecified: a zero mass, where `1 / obj["mass"]`
      (line 341) raises, or inverse masses summing to zero, where
      `other["mass"] / combined_mass` (line 351) does; and a contact at
      distance 0 (line 320), where the source divides numpy scalars and
      goes on with NaN. */
  function LResolve(b1: LBody, b2: LBody, sqrt: SqrtFn): Option<LPair> {
    var d := LDist(b1, b2, sqrt);
    if !(d < b1.radius + b2.radius) then Some(LPair(b1, b2))
    else if d == 0.0 then None
    else
      var n := Div(LSep(b1, b2), d);
      if LRelNormal(b1, b2, n) > 0.0 then Some(LPair(b1, b2))
      else if !LImpulseDefined(b1, b2) then None
      else Some(LRespond(b1, b2, n, d))
  }

  /** The response of `LResolve` fires. */
  predicate LFires(b1: LBody, b2: LBody, sqrt: SqrtFn) {
    var d := LDist(b1, b2, sqrt);
    d != 0.0 && d < b1.radius + b2.radius &&
    LRelNormal(b1, b2, Div(LSep(b1, b2), d)) <= 0.0 &&
    LImpulseDefined(b1, b2)
  }

  /** The inner loop over `j != i` from index `j` on. */
  function LCollideFrom(objs: seq<LBody>, i: nat, j: nat, sqrt: SqrtFn): (r: Option<seq<LBody>>)
    requires i < |objs| && j <= |objs|
    ensures r.Some? ==> |r.value| == |objs|
    decreases |objs| - j
  {
    if j == |objs| then Some(objs)
    else if j == i then LCollideFrom(objs, i, j + 1, sqrt)
    else match LResolve(objs[i], objs[j], sqrt) {
      case None => None
      case Some(p) => LCollideFrom(objs[i := p.first][j := p.second], i, j + 1, sqrt)
    }
  }

  /** Body `i` advanced and bounced off the walls. */
  function Stepped(b: LBody): LBody {
    Walls(Advance(b))
  }

  /** The outer loop of `update_object_positions` from index `i` on. */
  function LPositionsFrom(objs: seq<LBody>, i: nat, sqrt: SqrtFn): Option<seq<LBody>>
    requires i <= |objs|
    decreases |objs| - i
  {
    if i == |objs| then Some(objs)
    else match LCollideFrom(objs[i := Stepped(objs[i])], i, 0, sqrt) {
      case None => None
      case Some(o) => LPositionsFrom(o, i + 1, sqrt)
    }
  }

  /** `update_object_positions`; `None` when it divides by zero. */
  function LPositionStep(objs: seq<LBody>, sqrt: SqrtFn): Option<seq<LBody>> {
    LPositionsFrom(objs, 0, sqrt)
  }
}
