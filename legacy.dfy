/** The stateful part of the root gravity_simulator_2.py: the global object
    list with its selected and dragged object, the field sampler, and the
    velocity and position passes that rewrite the list in place. */
module LegacySimulator {
  import opened Numerics
  import opened ScenePhysics
  import opened CoreVectorField
  import opened LegacyPhysics
  import opened LegacyProofs

  // ------------------------------------------------------------- the field

  /** The lattice of `generate_vector_field`: columns `np.arange(0, WIDTH,
      grid_size)`, rows `np.arange(0, HEIGHT, grid_size)`. */
  function LatticeX(gridSize: int): seq<int>
    requires gridSize != 0
  {
    Arange(0, WIDTH, gridSize)
  }

  function LatticeY(gridSize: int): seq<int>
    requires gridSize != 0
  {
    Arange(0, HEIGHT, gridSize)
  }

  /** With `GRID_SIZE` the field arrays are 30 rows by 40 columns, at
      `0, 20, …, 780` across and `0, 20, …, 580` down. */
  lemma LegacyLattice()
    ensures |LatticeX(GRID_SIZE)| == 40 && |LatticeY(GRID_SIZE)| == 30
    ensures forall k :: 0 <= k < 40 ==> LatticeX(GRID_SIZE)[k] == 20 * k
    ensures forall k :: 0 <= k < 30 ==> LatticeY(GRID_SIZE)[k] == 20 * k
  {
    ArangeLength(0, WIDTH, GRID_SIZE, 40);
    ArangeLength(0, HEIGHT, GRID_SIZE, 30);
  }

  /** `U -= flow_strength·dx/distance` and `V -= flow_strength·dy/distance`
      for one body, entry by entry. */
  method SubtractFlow(u: array2<real>, v: array2<real>, sx: array2<int>, sy: array2<int>,
                      b: LBody, rule: FlowRule)
    requires u != v
    requires v.Length0 == u.Length0 && sx.Length0 == u.Length0 && sy.Length0 == u.Length0
    requires v.Length1 == u.Length1 && sx.Length1 == u.Length1 && sy.Length1 == u.Length1
    modifies u, v
    ensures forall i, j :: 0 <= i < u.Length0 && 0 <= j < u.Length1 ==>
              u[i, j] == old(u[i, j]) - rule(b, sx[i, j] as real, sy[i, j] as real).x &&
              v[i, j] == old(v[i, j]) - rule(b, sx[i, j] as real, sy[i, j] as real).y
  {
    var i := 0;
    while i < u.Length0
      invariant 0 <= i <= u.Length0
      invariant forall i', j :: 0 <= i' < i && 0 <= j < u.Length1 ==>
                  u[i', j] == old(u[i', j]) - rule(b, sx[i', j] as real, sy[i', j] as real).x &&
                  v[i', j] == old(v[i', j]) - rule(b, sx[i', j] as real, sy[i', j] as real).y
      invariant forall i', j :: i <= i' < u.Length0 && 0 <= j < u.Length1 ==>
                  u[i', j] == old(u[i', j]) && v[i', j] == old(v[i', j])
    {
      SubtractFlowRow(u, v, sx, sy, b, rule, i);
      i := i + 1;
    }
  }

  /** One row `i` of the lattice in `SubtractFlow`; the other rows keep their values. */
  method SubtractFlowRow(u: array2<real>, v: array2<real>, sx: array2<int>, sy: array2<int>,
                         b: LBody, rule: FlowRule, i: nat)
    requires u != v && i < u.Length0
    requires v.Length0 == u.Length0 && sx.Length0 == u.Length0 && sy.Length0 == u.Length0
    requires v.Length1 == u.Length1 && sx.Length1 == u.Length1 && sy.Length1 == u.Length1
    modifies u, v
    ensures forall j :: 0 <= j < u.Length1 ==>
              u[i, j] == old(u[i, j]) - rule(b, sx[i, j] as real, sy[i, j] as real).x &&
              v[i, j] == old(v[i, j]) - rule(b, sx[i, j] as real, sy[i, j] as real).y
    ensures forall i', j :: 0 <= i' < u.Length0 && i' != i && 0 <= j < u.Length1 ==>
              u[i', j] == old(u[i', j]) && v[i', j] == old(v[i', j])
  {
    var j := 0;
    while j < u.Length1
      invariant 0 <= j <= u.Length1
      invariant forall j' :: 0 <= j' < j ==>
                  u[i, j'] == old(u[i, j']) - rule(b, sx[i, j'] as real, sy[i, j'] as real).x &&
                  v[i, j'] == old(v[i, j']) - rule(b, sx[i, j'] as real, sy[i, j'] as real).y
      invariant forall j' :: j <= j' < u.Length1 ==> u[i, j'] == old(u[i, j']) && v[i, j'] == old(v[i, j'])
      invariant forall i', j' :: 0 <= i' < u.Length0 && i' != i && 0 <= j' < u.Length1 ==>
                  u[i', j'] == old(u[i', j']) && v[i', j'] == old(v[i', j'])
    {
      var c := rule(b, sx[i, j] as real, sy[i, j] as real);
      u[i, j] := u[i, j] - c.x;
      v[i, j] := v[i, j] - c.y;
      j := j + 1;
    }
  }

  /** `generate_vector_field(grid_size, objects)`: the lattice `(X, Y)` and,
      at each lattice point, the field `(U, V)` summed from zero over the
      bodies in list order (the source's contribution is
      `InverseSquare(sqrt)`). */
  method GenerateVectorField(gridSize: int, objs: seq<LBody>, rule: FlowRule)
    returns (sx: array2<int>, sy: array2<int>, u: array2<real>, v: array2<real>)
    requires gridSize != 0
    ensures fresh(sx) && fresh(sy) && fresh(u) && fresh(v)
    ensures sx.Length0 == |LatticeY(gridSize)| && sx.Length1 == |LatticeX(gridSize)|
    ensures sy.Length0 == sx.Length0 && u.Length0 == sx.Length0 && v.Length0 == sx.Length0
    ensures sy.Length1 == sx.Length1 && u.Length1 == sx.Length1 && v.Length1 == sx.Length1
    ensures forall i, j :: 0 <= i < sx.Length0 && 0 <= j < sx.Length1 ==>
              sx[i, j] == LatticeX(gridSize)[j] && sy[i, j] == LatticeY(gridSize)[i]
    ensures forall i, j :: 0 <= i < sx.Length0 && 0 <= j < sx.Length1 ==>
              u[i, j] == FieldAt(objs, sx[i, j] as real, sy[i, j] as real, rule).x &&
              v[i, j] == FieldAt(objs, sx[i, j] as real, sy[i, j] as real, rule).y
    ensures objs == [] ==>
              forall i, j :: 0 <= i < u.Length0 && 0 <= j < u.Length1 ==> u[i, j] == 0.0 && v[i, j] == 0.0
  {
    sx, sy := Meshgrid(LatticeX(gridSize), LatticeY(gridSize));
    u := new real[sx.Length0, sx.Length1]((i: int, j: int) => 0.0);
    v := new real[sx.Length0, sx.Length1]((i: int, j: int) => 0.0);
    var k := 0;
    while k < |objs|
      invariant 0 <= k <= |objs|
      invariant forall i, j :: 0 <= i < sx.Length0 && 0 <= j < sx.Length1 ==>
                  sx[i, j] == LatticeX(gridSize)[j] && sy[i, j] == LatticeY(gridSize)[i]
      invariant forall i, j :: 0 <= i < sx.Length0 && 0 <= j < sx.Length1 ==>
                  u[i, j] == FieldAt(objs[..k], sx[i, j] as real, sy[i, j] as real, rule).x &&
                  v[i, j] == FieldAt(objs[..k], sx[i, j] as real, sy[i, j] as real, rule).y
    {
      SubtractFlow(u, v, sx, sy, objs[k], rule);
      assert objs[..k + 1][..k] == objs[..k];
      k := k + 1;
    }
    assert objs[..k] == objs;
  }

  // ------------------------------------------------------------ simulator

  /** The module's globals. Object dicts become values and the selected and
      dragged object become indices into `objects`. */
  class LegacySim {
    var objects: seq<LBody>
    var selectedObject: Option<nat>
    var draggingObject: Option<nat>
    var paused: bool
    var fieldDisplayMode: string

    /** Both references point into the list. */
    ghost predicate Valid()
      reads this
    {
      (selectedObject.Some? ==> selectedObject.value < |objects|) &&
      (draggingObject.Some? ==> draggingObject.value < |objects|)
    }

    constructor ()
      ensures objects == [] && selectedObject.None? && draggingObject.None?
      ensures !paused && fieldDisplayMode == "vector"
      ensures Valid()
    {
      objects := [];
      selectedObject := None;
      draggingObject := None;
      paused := false;
      fieldDisplayMode := "vector";
    }

    /** `add_object` with the three `random.randint` draws passed in: one
        new body at rest at the end of the list. */
    method AddObject(x: int, y: int, mass: int)
      requires 50 <= x <= WIDTH - TOOLBAR_WIDTH - 50 && 50 <= y <= HEIGHT - 50 && 10 <= mass <= 1000
      requires Valid()
      modifies this
      ensures objects == old(objects) + [NewBody(x, y, mass)]
      ensures selectedObject == old(selectedObject) && draggingObject == old(draggingObject)
      ensures paused == old(paused) && fieldDisplayMode == old(fieldDisplayMode)
      ensures Valid()
    {
      objects := objects + [NewBody(x, y, mass)];
    }

    /** `update_selected_object` with the two text fields already parsed by
        `int()`. */
    method UpdateSelectedObject(massText: Option<int>, radiusText: Option<int>)
      requires Valid()
      modifies this
      ensures old(selectedObject).None? ==> objects == old(objects)
      ensures old(selectedObject).Some? ==>
                var i := old(selectedObject).value;
                objects == old(objects)[i := old(objects)[i].(mass := EditedMass(old(objects)[i].mass, massText),
                                                              radius := EditedRadius(old(objects)[i].radius, radiusText))]
      ensures selectedObject == old(selectedObject) && draggingObject == old(draggingObject)
      ensures paused == old(paused) && fieldDisplayMode == old(fieldDisplayMode)
      ensures Valid()
    {
      if selectedObject.Some? {
        var i := selectedObject.value;
        var b := objects[i];
        b := b.(mass := EditedMass(b.mass, massText));
        b := b.(radius := EditedRadius(b.radius, radiusText));
        objects := objects[i := b];
      }
    }

    /** `handle_mouse_click`: the first body in list order under the
        cursor becomes dragged and selected; a miss changes nothing. */
    method HandleMouseClick(mx: real, my: real, sqrt: SqrtFn)
      requires Valid()
      modifies this
      ensures var h := FirstHitFrom(old(objects), 0, mx, my, sqrt);
              (h.Some? ==> selectedObject == h && draggingObject == h) &&
              (h.None? ==> selectedObject == old(selectedObject) && draggingObject == old(draggingObject))
      ensures objects == old(objects) && paused == old(paused) && fieldDisplayMode == old(fieldDisplayMode)
      ensures Valid()
    {
      var k := 0;
      while k < |objects|
        invariant 0 <= k <= |objects|
        invariant FirstHitFrom(objects, k, mx, my, sqrt) == FirstHitFrom(objects, 0, mx, my, sqrt)
        invariant objects == old(objects) && selectedObject == old(selectedObject) && draggingObject == old(draggingObject)
      {
        if Hit(objects[k], mx, my, sqrt) {
          draggingObject := Some(k);
          selectedObject := Some(k);
          return;
        }
        k := k + 1;
      }
    }

    /** `handle_mouse_release`. */
    method HandleMouseRelease()
      requires Valid()
      modifies this
      ensures draggingObject.None? && objects == old(objects) && selectedObject == old(selectedObject)
      ensures paused == old(paused) && fieldDisplayMode == old(fieldDisplayMode)
      ensures Valid()
    {
      draggingObject := None;
    }

    /** `handle_mouse_drag`: the dragged body follows the cursor, clamped
        so that its disc stays inside the field. */
    method HandleMouseDrag(mx: real, my: real)
      requires Valid()
      modifies this
      ensures old(draggingObject).None? ==> objects == old(objects)
      ensures old(draggingObject).Some? ==>
                var i := old(draggingObject).value;
                var b := old(objects)[i];
                objects == old(objects)[i := b.(x := DragTo(b.radius, FIELD_RIGHT, mx),
                                                 y := DragTo(b.radius, HEIGHT as real, my))]
      ensures selectedObject == old(selectedObject) && draggingObject == old(draggingObject)
      ensures paused == old(paused) && fieldDisplayMode == old(fieldDisplayMode)
      ensures Valid()
    {
      if draggingObject.Some? {
        var i := draggingObject.value;
        var b := objects[i];
        b := b.(x := Max(b.radius, Min(FIELD_RIGHT - b.radius, mx)));
        b := b.(y := Max(b.radius, Min(HEIGHT as real - b.radius, my)));
        objects := objects[i := b];
      }
    }

    /** The field toggle button: "vector" becomes "heatmap", anything else
        becomes "vector". */
    method ToggleFieldDisplay()
      requires Valid()
      modifies this
      ensures fieldDisplayMode == (if old(fieldDisplayMode) == "vector" then "heatmap" else "vector")
      ensures objects == old(objects) && selectedObject == old(selectedObject)
      ensures draggingObject == old(draggingObject) && paused == old(paused)
      ensures Valid()
    {
      if fieldDisplayMode == "vector" {
        fieldDisplayMode := "heatmap";
      } else {
        fieldDisplayMode := "vector";
      }
    }

    /** The pause button. */
    method TogglePause()
      requires Valid()
      modifies this
      ensures paused == !old(paused)
      ensures objects == old(objects) && selectedObject == old(selectedObject)
      ensures draggingObject == old(draggingObject) && fieldDisplayMode == old(fieldDisplayMode)
      ensures Valid()
    {
      paused := !paused;
    }

    /** The reset button: the list is emptied and nothing is selected. The
        source keeps its reference to a dragged dict, which is no longer in
        the list, so dragging it moves nothing on screen; the model drops the
        index. */
    method Reset()
      requires Valid()
      modifies this
      ensures objects == [] && selectedObject.None? && draggingObject.None?
      ensures paused == old(paused) && fieldDisplayMode == old(fieldDisplayMode)
      ensures Valid()
    {
      objects := [];
      selectedObject := None;
      draggingObject := None;
    }

    /** `update_object_velocities(U, V, X, Y)`: only the shape of `U` is
        read. Each body inside the lattice gets `0.1·` its local field,
        computed from the list as it stands; since the pass writes only
        velocities, that is the list as it was on entry. The source's pair
        rule is `Newtonian(sqrt)`. */
    method UpdateObjectVelocities(u: array2<real>, rule: PairRule)
      requires Valid()
      modifies this
      ensures objects == NudgePass(old(objects), u.Length0, u.Length1, rule)
      ensures selectedObject == old(selectedObject) && draggingObject == old(draggingObject)
      ensures paused == old(paused) && fieldDisplayMode == old(fieldDisplayMode)
      ensures Valid()
    {
      ghost var start := objects;
      var n := |objects|;
      var i := 0;
      while i < n
        invariant 0 <= i <= n && |objects| == n
        invariant forall k :: 0 <= k < n ==> SourceOf(objects[k]) == SourceOf(start[k])
        invariant forall k :: 0 <= k < i ==> objects[k] == NudgedAt(start, k, u.Length0, u.Length1, rule)
        invariant forall k :: i <= k < n ==> objects[k] == start[k]
        invariant selectedObject == old(selectedObject) && draggingObject == old(draggingObject)
        invariant paused == old(paused) && fieldDisplayMode == old(fieldDisplayMode)
      {
        if InGrid(objects[i], u.Length0, u.Length1) {
          var f := Vec(0.0, 0.0);
          var j := 0;
          while j < n
            invariant 0 <= j <= n
            invariant f == LocalField(objects, i, j, rule)
          {
            if j != i {
              var c := rule(SourceOf(objects[i]), SourceOf(objects[j]));
              f := Vec(f.x - c.x, f.y - c.y);
            }
            j := j + 1;
          }
          LocalFieldSources(objects, start, i, n, rule);
          objects := objects[i := Nudge(objects[i], f)];
        }
        i := i + 1;
      }
    }

    /** `update_object_positions`: every body moves and bounces off the
        walls, then meets every other body in list order. `ok` is `false`
        when a contact step is unspecified (see `LResolve`), and the list is
        then as far as it was written. */
    method UpdateObjectPositions(sqrt: SqrtFn) returns (ok: bool)
      requires Valid()
      modifies this
      ensures ok == LPositionStep(old(objects), sqrt).Some?
      ensures ok ==> objects == LPositionStep(old(objects), sqrt).value
      ensures |objects| == |old(objects)|
      ensures selectedObject == old(selectedObject) && draggingObject == old(draggingObject)
      ensures paused == old(paused) && fieldDisplayMode == old(fieldDisplayMode)
      ensures Valid()
    {
      var n := |objects|;
      var i := 0;
      while i < n
        invariant 0 <= i <= n && |objects| == n
        invariant LPositionsFrom(objects, i, sqrt) == LPositionStep(old(objects), sqrt)
        invariant selectedObject == old(selectedObject) && draggingObject == old(draggingObject)
        invariant paused == old(paused) && fieldDisplayMode == old(fieldDisplayMode)
      {
        var moved := objects[i := Walls(Advance(objects[i]))];
        objects := moved;
        var j := 0;
        while j < n
          invariant 0 <= j <= n && |objects| == n
          invariant LCollideFrom(objects, i, j, sqrt) == LCollideFrom(moved, i, 0, sqrt)
          invariant selectedObject == old(selectedObject) && draggingObject == old(draggingObject)
          invariant paused == old(paused) && fieldDisplayMode == old(fieldDisplayMode)
        {
          if i != j {
            var r := LResolve(objects[i], objects[j], sqrt);
            if r.None? {
              return false;
            }
            objects := objects[i := r.value.first][j := r.value.second];
          }
          j := j + 1;
        }
        i := i + 1;
      }
      ok := true;
    }
  }
}
