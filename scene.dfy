/** The `Scene` of core/scene.py: the list of bodies and the display flags,
    with the two physics passes of `update` and the trail pass of
    `draw_objects` as methods that rewrite the list in place. Each method is
    proved against the functions of `ScenePhysics` and `SceneTrails`. */
module CoreScene {
  import opened Numerics
  import opened CoreCamera
  import opened ScenePhysics
  import opened SceneTrails

  /** `accelerations[i]` of `update_object_velocities`: the contributions of
      every body summed in list order. */
  method AccelerationOf(objs: seq<Body>, i: nat, law: Law) returns (a: Vec)
    requires i < |objs|
    ensures a == Accel(objs, i, law)
  {
    a := Vec(0.0, 0.0);
    var j := 0;
    while j < |objs|
      invariant 0 <= j <= |objs|
      invariant a == AccelSum(objs, objs[i], j, law)
    {
      a := Add(a, law(objs[i], objs[j]));
      j := j + 1;
    }
  }

  /** The loops of `update_object_velocities` on a non-empty list: the first
      computes every acceleration from the list as given and tracks the
      largest norm; the second writes the new velocities. */
  method VelocityPass(snapshot: seq<Body>, dt: real, law: Law, sqrt: SqrtFn)
    returns (objs: seq<Body>, maxA: real)
    requires |snapshot| > 0
    ensures objs == VelocityStep(snapshot, dt, law)
    ensures maxA == MaxAccel(snapshot, |snapshot|, law, sqrt)
  {
    var n := |snapshot|;
    var accelerations: seq<Vec> := [];
    maxA := 0.0;
    var i := 0;
    while i < n
      invariant 0 <= i <= n
      invariant accelerations == Accels(snapshot, i, law)
      invariant maxA == MaxAccel(snapshot, i, law, sqrt)
    {
      var a := AccelerationOf(snapshot, i, law);
      accelerations := accelerations + [a];
      maxA := Max(maxA, Norm(a, sqrt));
      i := i + 1;
    }
    objs := snapshot;
    i := 0;
    while i < n
      invariant 0 <= i <= n && |objs| == n
      invariant forall k :: 0 <= k < i ==> objs[k] == Kick(snapshot[k], accelerations[k], dt)
      invariant forall k :: i <= k < n ==> objs[k] == snapshot[k]
    {
      objs := objs[i := Kick(snapshot[i], accelerations[i], dt)];
      i := i + 1;
    }
    assert objs == KickAll(snapshot, accelerations, dt);
  }

  /** The nested loops of `update_object_positions`. `ok` is `false` when
      a contact step is unspecified (see `Resolve`), and `objs` is then the
      list as far as it was written. */
  method PositionPass(start: seq<Body>, dt: real, sqrt: SqrtFn) returns (objs: seq<Body>, ok: bool)
    ensures |objs| == |start|
    ensures ok == PositionStep(start, dt, sqrt).Some?
    ensures ok ==> objs == PositionStep(start, dt, sqrt).value
  {
    objs := start;
    var n := |objs|;
    var i := 0;
    while i < n
      invariant 0 <= i <= n && |objs| == n
      invariant PositionsFrom(objs, i, dt, sqrt) == PositionStep(start, dt, sqrt)
    {
      var moved := objs[i := Move(objs[i], dt)];
      objs := moved;
      var j := 0;
      while j < n
        invariant 0 <= j <= n && |objs| == n
        invariant CollideFrom(objs, i, j, sqrt) == CollideFrom(moved, i, 0, sqrt)
      {
        if i != j {
          var r := Resolve(objs[i], objs[j], sqrt);
          if r.None? {
            return objs, false;
          }
          objs := objs[i := r.value.first][j := r.value.second];
        }
        j := j + 1;
      }
      i := i + 1;
    }
    ok := true;
  }

  /** The trail block of `draw_objects` applied to every body. */
  function TrailsRecorded(objs: seq<Body>, enabled: bool, elapsed: real, maxAge: real,
                          sqrt: SqrtFn): (r: seq<Body>)
    ensures |r| == |objs|
  {
    seq(|objs|, k requires 0 <= k < |objs| => RecordTrail(objs[k], enabled, elapsed, maxAge, sqrt))
  }

  /** The trail block of `draw_objects`, over every body in list order. */
  method TrailPass(start: seq<Body>, enabled: bool, elapsed: real, maxAge: real, sqrt: SqrtFn)
    returns (objs: seq<Body>)
    ensures objs == TrailsRecorded(start, enabled, elapsed, maxAge, sqrt)
  {
    objs := start;
    var i := 0;
    while i < |objs|
      invariant 0 <= i <= |objs| && |objs| == |start|
      invariant forall k :: 0 <= k < i ==> objs[k] == RecordTrail(start[k], enabled, elapsed, maxAge, sqrt)
      invariant forall k :: i <= k < |objs| ==> objs[k] == start[k]
    {
      var obj := objs[i];
      if enabled {
        var trail := obj.trail + [TrailPoint(obj.x, obj.y, elapsed)];
        var trimmed := TrimTrail(trail, obj.x, obj.y, elapsed, maxAge, sqrt);
        objs := objs[i := obj.(trail := trimmed)];
      } else {
        objs := objs[i := obj.(trail := [])];
      }
      i := i + 1;
    }
  }

  class Scene {
    var objects: seq<Body>
    var fieldMode: string
    var trailEnabled: bool
    /** Trail length in seconds of simulated time per unit of speed multiplier. */
    var trailLength: real
    var vectorsEnabled: bool
    var objectIdCounter: int
    var maxVelocity: real
    var maxAcceleration: real
    const camera: Camera

    constructor ()
      ensures objects == [] && fieldMode == "vector" && trailEnabled && trailLength == 3.0
      ensures vectorsEnabled && objectIdCounter == 0 && maxVelocity == 0.0 && maxAcceleration == 0.0
      ensures fresh(camera) && camera.IsDefault()
    {
      objects := [];
      fieldMode := "vector";
      trailEnabled := true;
      trailLength := 3.0;
      vectorsEnabled := true;
      objectIdCounter := 0;
      maxVelocity := 0.0;
      maxAcceleration := 0.0;
      camera := new Camera.Default();
    }

    /** The display flags and counters that the physics passes leave alone. */
    ghost predicate SameSettings(fm: string, te: bool, tl: real, ve: bool, oc: int)
      reads this
    {
      fieldMode == fm && trailEnabled == te && trailLength == tl &&
      vectorsEnabled == ve && objectIdCounter == oc
    }

    /** `update_object_velocities`: nothing happens for an empty list;
        otherwise every acceleration is computed from the list as it was on
        entry, `max_acceleration` is the largest acceleration norm, every
        velocity is then rewritten, and `max_velocity` is the largest new speed.
        The pairwise pull is the `law` parameter; `Update` passes `Gravity(sqrt)`. */
    method UpdateObjectVelocities(dt: real, law: Law, sqrt: SqrtFn)
      modifies this
      ensures objects == VelocityStep(old(objects), dt, law)
      ensures old(objects) == [] ==>
                maxAcceleration == old(maxAcceleration) && maxVelocity == old(maxVelocity)
      ensures old(objects) != [] ==>
                maxAcceleration == MaxAccel(old(objects), |old(objects)|, law, sqrt) &&
                maxVelocity == MaxSpeed(objects, |objects|, sqrt)
      ensures SameSettings(old(fieldMode), old(trailEnabled), old(trailLength),
                           old(vectorsEnabled), old(objectIdCounter))
    {
      if |objects| == 0 {
        return;
      }
      var objs, maxA := VelocityPass(objects, dt, law, sqrt);
      objects := objs;
      maxAcceleration := maxA;
      maxVelocity := MaxSpeed(objs, |objs|, sqrt);
    }

    /** `update_object_positions`: body `i` moves, then meets every other
        body `j` in list order. `false` when a contact step is
        unspecified (see `Resolve`); the bodies already written stay written. */
    method UpdateObjectPositions(dt: real, sqrt: SqrtFn) returns (ok: bool)
      modifies this
      ensures ok == PositionStep(old(objects), dt, sqrt).Some?
      ensures ok ==> objects == PositionStep(old(objects), dt, sqrt).value
      ensures |objects| == |old(objects)|
      ensures maxAcceleration == old(maxAcceleration) && maxVelocity == old(maxVelocity)
      ensures SameSettings(old(fieldMode), old(trailEnabled), old(trailLength),
                           old(vectorsEnabled), old(objectIdCounter))
    {
      var objs;
      objs, ok := PositionPass(objects, dt, sqrt);
      objects := objs;
    }

    /** `update`: the velocity pass, then the position pass. With no bodies
        nothing changes at all. */
    method Update(dt: real, sqrt: SqrtFn) returns (ok: bool)
      modifies this
      ensures ok == PositionStep(VelocityStep(old(objects), dt, Gravity(sqrt)), dt, sqrt).Some?
      ensures ok ==> objects == PositionStep(VelocityStep(old(objects), dt, Gravity(sqrt)), dt, sqrt).value
      ensures old(objects) == [] ==>
                ok && objects == [] && maxAcceleration == old(maxAcceleration) &&
                maxVelocity == old(maxVelocity)
      ensures SameSettings(old(fieldMode), old(trailEnabled), old(trailLength),
                           old(vectorsEnabled), old(objectIdCounter))
    {
      UpdateObjectVelocities(dt, Gravity(sqrt), sqrt);
      ok := UpdateObjectPositions(dt, sqrt);
    }

    /** The trail block of `draw_objects` for every body: with trails
        enabled, `(x, y, elapsed_time)` is appended and the trail trimmed with
        `max_age = trail_length · speed_multiplier`; otherwise it is emptied. */
    method RecordTrails(elapsed: real, speedMultiplier: real, sqrt: SqrtFn)
      modifies this
      ensures objects == TrailsRecorded(old(objects), old(trailEnabled), elapsed,
                                        old(trailLength) * speedMultiplier, sqrt)
      ensures maxAcceleration == old(maxAcceleration) && maxVelocity == old(maxVelocity)
      ensures SameSettings(old(fieldMode), old(trailEnabled), old(trailLength),
                           old(vectorsEnabled), old(objectIdCounter))
    {
      var objs := TrailPass(objects, trailEnabled, elapsed, trailLength * speedMultiplier, sqrt);
      objects := objs;
    }
  }
}
