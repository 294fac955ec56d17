/** The application shell of core/gravity_simulator_2.py: the simulation
    state, the per-frame clock rule of `App.run`, and the elapsed-time
    formatter of the status bar. */
module CoreApp {
  import opened Numerics
  import opened Text
  import opened ScenePhysics
  import opened CoreScene

  // ------------------------------------------------------------ formatter

  type Pos = n: int | n > 0 witness 1

  /** A unit of `format_elapsed_time`: its label, its length in seconds,
      and how many of it make the next larger unit (0 for years). */
  datatype Unit = Unit(name: string, seconds: Pos, limit: nat)

  /** The `intervals` table, largest first; a year is 52 weeks. */
  const INTERVALS: seq<Unit> := [
    Unit("yr", 31449600, 0),
    Unit("wk", 604800, 52),
    Unit("d", 86400, 7),
    Unit("hr", 3600, 24),
    Unit("min", 60, 60),
    Unit("s", 1, 60)
  ]

  /** Units strictly largest first. */
  predicate Descending(units: seq<Unit>) {
    forall i, j :: 0 <= i < j < |units| ==> units[i].seconds > units[j].seconds
  }

  /** Each unit is `limit` of the one after it, starting from `bound`
      seconds above the first. */
  predicate Chained(bound: int, units: seq<Unit>)
    decreases |units|
  {
    units == [] || (bound == units[0].limit * units[0].seconds && Chained(units[0].seconds, units[1..]))
  }

  /** The last unit is one second. */
  predicate EndsInSeconds(units: seq<Unit>) {
    units != [] && units[|units| - 1].seconds == 1
  }

  /** The table has the three properties the formatter relies on. */
  lemma IntervalsTable()
    ensures Descending(INTERVALS) && EndsInSeconds(INTERVALS)
    ensures Chained(INTERVALS[0].seconds, INTERVALS[1..])
    ensures INTERVALS[0].seconds == 60 * 60 * 24 * 7 * 52
  {
    assert Chained(1, []);
    assert Chained(60, INTERVALS[5..]);
    assert Chained(3600, INTERVALS[4..]);
    assert Chained(86400, INTERVALS[3..]);
    assert Chained(604800, INTERVALS[2..]);
    assert INTERVALS[1..][1..] == INTERVALS[2..];
  }

  /** One emitted part: `value` of `unit`. */
  datatype Part = Part(value: int, unit: Unit)

  /** The parts the loop emits from `units` with `remaining` seconds left:
      a unit with quotient `remaining // count > 0` is emitted and
      `remaining %= count`; a unit with quotient 0 is skipped. */
  function PartsFrom(remaining: int, units: seq<Unit>): seq<Part>
    decreases |units|
  {
    if units == [] then []
    else
      var value := remaining / units[0].seconds;
      if value > 0 then [Part(value, units[0])] + PartsFrom(remaining % units[0].seconds, units[1..])
      else PartsFrom(remaining, units[1..])
  }

  /** The parts of `format_elapsed_time(seconds)`, from `int(seconds)`. */
  function ElapsedParts(seconds: real): seq<Part> {
    PartsFrom(Trunc(seconds), INTERVALS)
  }

  /** `f"{value} {name}"`. */
  function Label(p: Part): string {
    IntToString(p.value) + " " + p.unit.name
  }

  function Labels(parts: seq<Part>): (r: seq<string>)
    ensures |r| == |parts|
  {
    seq(|parts|, i requires 0 <= i < |parts| => Label(parts[i]))
  }

  lemma LabelsSnoc(parts: seq<Part>, p: Part)
    ensures Labels(parts + [p]) == Labels(parts) + [Label(p)]
  {
  }

  /** The returned text: `"0 s"` when nothing was emitted, otherwise the
      labels joined by single spaces. */
  function Render(parts: seq<Part>): string {
    if parts == [] then "0 s" else Join(" ", Labels(parts))
  }

  /** Total seconds the parts stand for. */
  function PartsSeconds(parts: seq<Part>): int {
    if parts == [] then 0 else parts[0].value * parts[0].unit.seconds + PartsSeconds(parts[1..])
  }

  /** Proof step: `PartsFrom` unfolded by one turn, for the lemmas below. */
  lemma PartsFromStep(remaining: int, units: seq<Unit>, value: int)
    requires units != [] && value == remaining / units[0].seconds
    ensures value > 0 ==>
              PartsFrom(remaining, units) == [Part(value, units[0])] + PartsFrom(remaining % units[0].seconds, units[1..])
    ensures value <= 0 ==> PartsFrom(remaining, units) == PartsFrom(remaining, units[1..])
  {
  }

  /** What the loop emits from largest-first units: units of the table,
      strictly largest first (so none repeated), every value positive. */
  lemma {:induction false} PartsOrdered(remaining: int, units: seq<Unit>)
    requires Descending(units)
    ensures var ps := PartsFrom(remaining, units);
            (forall i :: 0 <= i < |ps| ==> ps[i].unit in units && 0 < ps[i].value) &&
            (forall i, j :: 0 <= i < j < |ps| ==> ps[i].unit.seconds > ps[j].unit.seconds)
    decreases |units|
  {
    if units != [] {
      var value := remaining / units[0].seconds;
      PartsFromStep(remaining, units, value);
      assert Descending(units[1..]);
      if value > 0 {
        PartsOrdered(remaining % units[0].seconds, units[1..]);
      } else {
        PartsOrdered(remaining, units[1..]);
      }
    }
  }

  /** Started below `bound`, every emitted value stays below its unit's
      `limit`. */
  lemma {:induction false} PartsBelowLimit(remaining: int, bound: int, units: seq<Unit>)
    requires Chained(bound, units) && remaining < bound
    ensures var ps := PartsFrom(remaining, units);
            forall i :: 0 <= i < |ps| ==> ps[i].value < ps[i].unit.limit
    decreases |units|
  {
    if units != [] {
      var count := units[0].seconds;
      var value := remaining / count;
      PartsFromStep(remaining, units, value);
      if value > 0 {
        QuotientBelow(remaining, count, units[0].limit);
        DivMod(remaining, count, value);
        PartsBelowLimit(remaining % count, count, units[1..]);
      } else {
        PartsBelowLimit(remaining, count, units[1..]);
      }
    }
  }

  /** From a non-negative count the parts add up to exactly that count,
      once the last unit is one second. */
  lemma {:induction false} PartsSum(remaining: int, units: seq<Unit>)
    requires 0 <= remaining && EndsInSeconds(units)
    ensures PartsSeconds(PartsFrom(remaining, units)) == remaining
    decreases |units|
  {
    var count := units[0].seconds;
    var value := remaining / count;
    PartsFromStep(remaining, units, value);
    DivMod(remaining, count, value);
    var rest := units[1..];
    if value > 0 {
      if rest == [] {
        assert remaining % count == 0;
      } else {
        PartsSum(remaining % count, rest);
      }
      var tail := PartsFrom(remaining % count, rest);
      assert ([Part(value, units[0])] + tail)[1..] == tail;
    } else if rest != [] {
      PartsSum(remaining, rest);
    }
  }

  lemma QuotientBelow(r: int, c: int, limit: int)
    requires 0 < c && r < limit * c
    ensures r / c < limit
  {
  }

  lemma DivMod(r: int, c: int, q: int)
    requires 0 < c && q == r / c
    ensures q * c + r % c == r && 0 <= r % c < c
  {
  }

  /** Every emitted value is a positive count of its unit, the units come
      in the order yr, wk, d, hr, min, s with none repeated, every unit
      below years stays below its ratio to the next larger one (s < 60,
      min < 60, hr < 24, d < 7, wk < 52), and for non-negative input the
      parts add up to exactly `int(seconds)`. */
  lemma ElapsedPartsSpec(seconds: real)
    ensures var ps := ElapsedParts(seconds);
            (forall i :: 0 <= i < |ps| ==> ps[i].unit in INTERVALS && 0 < ps[i].value) &&
            (forall i, j :: 0 <= i < j < |ps| ==> ps[i].unit.seconds > ps[j].unit.seconds) &&
            (forall i :: 0 <= i < |ps| && ps[i].unit != INTERVALS[0] ==> ps[i].value < ps[i].unit.limit) &&
            (0.0 <= seconds ==> PartsSeconds(ps) == Trunc(seconds))
  {
    var r := Trunc(seconds);
    IntervalsTable();
    PartsOrdered(r, INTERVALS);
    if 0.0 <= seconds {
      PartsSum(r, INTERVALS);
    }
    YearsAbsorbOverflow(r);
  }

  /** Only the years can exceed their limit: everything after them is
      emitted from a remainder below one year. */
  lemma YearsAbsorbOverflow(r: int)
    ensures var ps := PartsFrom(r, INTERVALS);
            forall i :: 0 <= i < |ps| && ps[i].unit != INTERVALS[0] ==> ps[i].value < ps[i].unit.limit
  {
    IntervalsTable();
    var c := INTERVALS[0].seconds;
    var rest := INTERVALS[1..];
    PartsFromStep(r, INTERVALS, r / c);
    if r / c > 0 {
      DivMod(r, c, r / c);
      PartsBelowLimit(r % c, c, rest);
    } else {
      PartsBelowLimit(r, c, rest);
    }
  }

  /** Below one whole second, and for negative input, the text is `"0 s"`. */
  lemma FormatNonPositive(seconds: real)
    requires Trunc(seconds) <= 0
    ensures ElapsedParts(seconds) == []
    ensures Render(ElapsedParts(seconds)) == "0 s"
  {
    NoPartsFrom(Trunc(seconds), INTERVALS);
  }

  lemma {:induction false} NoPartsFrom(remaining: int, units: seq<Unit>)
    requires remaining <= 0
    ensures PartsFrom(remaining, units) == []
    decreases |units|
  {
    if units != [] {
      assert remaining / units[0].seconds <= 0;
      NoPartsFrom(remaining, units[1..]);
    }
  }

  /** `3725.9` seconds are one hour, two minutes and five seconds. */
  lemma FormatExampleParts()
    ensures ElapsedParts(3725.9) == [Part(1, INTERVALS[3]), Part(2, INTERVALS[4]), Part(5, INTERVALS[5])]
  {
    assert Trunc(3725.9) == 3725;
    assert PartsFrom(5, INTERVALS[5..]) == [Part(5, INTERVALS[5])] + PartsFrom(0, INTERVALS[6..]);
    assert PartsFrom(125, INTERVALS[4..]) == [Part(2, INTERVALS[4])] + PartsFrom(5, INTERVALS[5..]);
    assert PartsFrom(3725, INTERVALS[3..]) == [Part(1, INTERVALS[3])] + PartsFrom(125, INTERVALS[4..]);
    assert PartsFrom(3725, INTERVALS[2..]) == PartsFrom(3725, INTERVALS[3..]);
    assert PartsFrom(3725, INTERVALS[1..]) == PartsFrom(3725, INTERVALS[2..]);
    assert PartsFrom(3725, INTERVALS) == PartsFrom(3725, INTERVALS[1..]);
  }

  lemma FormatExample()
    ensures Render(ElapsedParts(3725.9)) == "1 hr 2 min 5 s"
  {
    FormatExampleParts();
    RenderExample();
  }

  lemma RenderExample()
    ensures Render([Part(1, INTERVALS[3]), Part(2, INTERVALS[4]), Part(5, INTERVALS[5])]) == "1 hr 2 min 5 s"
  {
    LabelsExample();
    JoinThree("1 hr", "2 min", "5 s");
  }

  lemma LabelsExample()
    ensures Labels([Part(1, INTERVALS[3]), Part(2, INTERVALS[4]), Part(5, INTERVALS[5])]) == ["1 hr", "2 min", "5 s"]
  {
    var ps := [Part(1, INTERVALS[3]), Part(2, INTERVALS[4]), Part(5, INTERVALS[5])];
    assert IntToString(1) == "1" && IntToString(2) == "2" && IntToString(5) == "5";
    assert Label(ps[0]) == "1 hr" && Label(ps[1]) == "2 min" && Label(ps[2]) == "5 s";
  }

  lemma JoinThree(a: string, b: string, c: string)
    ensures Join(" ", [a, b, c]) == a + " " + b + " " + c
  {
    assert [a, b, c][1..] == [b, c];
    assert [b, c][1..] == [c];
  }

  lemma AppendAssoc(a: seq<Part>, x: Part, b: seq<Part>)
    ensures a + ([x] + b) == (a + [x]) + b
  {
  }

  /** `App.format_elapsed_time`: the loop over `intervals`. */
  method FormatElapsedTime(seconds: real) returns (s: string)
    ensures s == Render(ElapsedParts(seconds))
  {
    var remaining := Trunc(seconds);
    var parts: seq<string> := [];
    ghost var emitted: seq<Part> := [];
    ghost var target := ElapsedParts(seconds);
    var k := 0;
    while k < |INTERVALS|
      invariant 0 <= k <= |INTERVALS|
      invariant parts == Labels(emitted)
      invariant emitted + PartsFrom(remaining, INTERVALS[k..]) == target
    {
      var unit := INTERVALS[k];
      var value := remaining / unit.seconds;
      assert INTERVALS[k..][0] == unit && INTERVALS[k..][1..] == INTERVALS[k + 1..];
      PartsFromStep(remaining, INTERVALS[k..], value);
      if value > 0 {
        LabelsSnoc(emitted, Part(value, unit));
        AppendAssoc(emitted, Part(value, unit), PartsFrom(remaining % unit.seconds, INTERVALS[k + 1..]));
        parts := parts + [IntToString(value) + " " + unit.name];
        emitted := emitted + [Part(value, unit)];
        remaining := remaining % unit.seconds;
      }
      k := k + 1;
    }
    assert emitted == target;
    if parts == [] {
      return "0 s";
    }
    s := Join(" ", parts);
  }

  // ----------------------------------------------------------- simulation

  /** `SimulationState`: the scene and the interaction state `App.run` and
      the event handlers share. */
  class SimulationState {
    const scene: Scene
    var uiMode: string
    var selectedObject: Option<nat>
    var draggingObject: Option<nat>
    var paused: bool
    var speedMultiplier: real
    var elapsedTime: real
    var panning: bool

    constructor ()
      ensures fresh(scene) && scene.objects == [] && scene.trailEnabled && scene.trailLength == 3.0
      ensures uiMode == "" && selectedObject == None && draggingObject == None
      ensures !paused && speedMultiplier == 1.0 && elapsedTime == 0.0 && !panning
    {
      scene := new Scene();
      uiMode := "";
      selectedObject, draggingObject := None, None;
      paused := false;
      speedMultiplier := 1.0;
      elapsedTime := 0.0;
      panning := false;
    }

    /** One frame of `App.run` without events: a non-positive speed
        multiplier is reset to 1.0, the effective step is
        `time_delta · speed_multiplier`, and only when not paused does the
        clock advance by it and the scene update with it. `ok` is `false`
        when the position pass is unspecified. */
    method Tick(timeDelta: real, sqrt: SqrtFn) returns (ok: bool, effective: real)
      modifies this, scene
      ensures speedMultiplier == (if old(speedMultiplier) <= 0.0 then 1.0 else old(speedMultiplier))
      ensures 0.0 < speedMultiplier
      ensures effective == Mul(timeDelta, speedMultiplier)
      ensures paused == old(paused) && uiMode == old(uiMode) && selectedObject == old(selectedObject)
      ensures draggingObject == old(draggingObject) && panning == old(panning)
      ensures old(paused) ==> ok && elapsedTime == old(elapsedTime) && scene.objects == old(scene.objects)
      ensures !old(paused) ==> elapsedTime == old(elapsedTime) + effective
      ensures !old(paused) ==>
                ok == PositionStep(VelocityStep(old(scene.objects), effective, Gravity(sqrt)), effective, sqrt).Some?
      ensures !old(paused) && ok ==>
                scene.objects == PositionStep(VelocityStep(old(scene.objects), effective, Gravity(sqrt)), effective, sqrt).value
    {
      if speedMultiplier <= 0.0 {
        speedMultiplier := 1.0;
      }
      effective := Mul(timeDelta, speedMultiplier);
      ok := true;
      if !paused {
        elapsedTime := elapsedTime + effective;
        ok := scene.Update(effective, sqrt);
      }
    }
  }
}
