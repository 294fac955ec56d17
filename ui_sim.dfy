/** The `sim` dict of the newer interface as an object whose handlers
    update it in place. Each method performs one handler of ui_actions.py
    and is proved to leave the state its transition function in
    `UiActions` describes, keeping every reference inside the list. */
module UiSimulation {
  import opened Numerics
  import opened Text
  import opened Config
  import opened UiActions
  import opened UiActionsProofs

  class UiSim {
    var objects: seq<UObject>
    var selectedObject: Option<nat>
    var draggingObject: Option<nat>
    var uiMode: string
    var paused: bool
    var trailEnabled: Option<bool>
    var vectorsEnabled: Option<bool>
    var trailLength: int
    var objectIdCounter: int
    var confirmDialog: Option<Dialog>

    ghost function State(): UiState
      reads this
    {
      UiState(objects, selectedObject, draggingObject, uiMode, paused, trailEnabled, vectorsEnabled,
              trailLength, objectIdCounter, confirmDialog)
    }

    ghost predicate Valid()
      reads this
    {
      ValidState(State())
    }

    /** A fresh `sim` with no objects, the given trail length and id
        counter, and the two flags absent. */
    constructor (trailLength: int, objectIdCounter: int)
      ensures State() == UiState([], None, None, "", false, None, None, trailLength, objectIdCounter, None)
      ensures Valid()
    {
      objects := [];
      selectedObject, draggingObject := None, None;
      uiMode := "";
      paused := false;
      trailEnabled, vectorsEnabled := None, None;
      this.trailLength := trailLength;
      this.objectIdCounter := objectIdCounter;
      confirmDialog := None;
    }

    /** `add_object` as written. */
    method AddObjectAsWritten(inp: Inputs, parseInt: IntParser, parseFloat: FloatParser)
      requires Valid()
      modifies this
      ensures State() == AddedAsWritten(old(State()), inp, parseInt, parseFloat)
      ensures Valid()
    {
      var name := inp.name;
      var counter := objectIdCounter;
      if name == "" {
        name := DEFAULT_NAME;
      }
      var mass := 10;
      var m := parseInt(inp.mass);
      if m.Some? {
        mass := MaxInt(1, m.value);
      }
      if IsBlank(inp.mass) {
        mass := 10;
      }
      var radius := 10;
      var r := parseInt(inp.radius);
      if r.Some? {
        radius := r.value;
        if radius > 100 {
          radius := 100;
        }
      }
      if IsBlank(inp.radius) {
        radius := 10;
      }
      var vx := FloatOr(inp.vx, parseFloat, 0.0);
      var vy := FloatOr(inp.vy, parseFloat, 0.0);
      var obj := UObject(counter, name, SPAWN_X as real, SPAWN_Y as real, vx, vy,
                         mass as real, radius as real, 0.001 * mass as real, None);
      counter := counter + 1;
      objects := objects + [obj];
      selectedObject := None;
    }

    /** `add_object` with `sim["object_id_counter"]` advanced. */
    method AddObject(inp: Inputs, parseInt: IntParser, parseFloat: FloatParser)
      requires Valid()
      modifies this
      ensures State() == Added(old(State()), inp, parseInt, parseFloat)
      ensures Valid()
    {
      objects := objects + [NewObject(objectIdCounter, inp, parseInt, parseFloat)];
      objectIdCounter := objectIdCounter + 1;
      selectedObject := None;
    }

    /** `update_selected_object`. */
    method UpdateSelectedObject(inp: Inputs, parseInt: IntParser, parseFloat: FloatParser)
      requires Valid()
      modifies this
      ensures State() == Edited(old(State()), inp, parseInt, parseFloat)
      ensures Valid()
    {
      if selectedObject.Some? {
        var i := selectedObject.value;
        var o := objects[i].(name := inp.name);
        var m := parseInt(inp.mass);
        if m.Some? {
          o := o.(mass := MaxInt(1, m.value) as real);
        }
        var r := parseInt(inp.radius);
        if r.Some? {
          o := o.(radius := MaxInt(1, MinInt(100, r.value)) as real);
        }
        var vx := parseFloat(inp.vx);
        if vx.Some? {
          o := o.(vx := vx.value);
        }
        var vy := parseFloat(inp.vy);
        if vy.Some? {
          o := o.(vy := vy.value);
        }
        objects := objects[i := o];
      }
    }

    /** `handle_mouse_click(pos)`. */
    method HandleMouseClick(x: real, y: real, sqrt: SqrtFn)
      requires Valid()
      modifies this
      ensures State() == Clicked(old(State()), x, y, sqrt)
      ensures Valid()
    {
      if !InSimArea(x, y) {
        return;
      }
      var k := 0;
      while k < |objects|
        invariant 0 <= k <= |objects|
        invariant FirstUHit(objects, k, x, y, sqrt) == FirstUHit(objects, 0, x, y, sqrt)
        invariant State() == old(State())
      {
        if UHit(objects[k], x, y, sqrt) {
          draggingObject := Some(k);
          uiMode := "edit";
          selectedObject := Some(k);
          return;
        }
        k := k + 1;
      }
      uiMode := "";
      selectedObject := None;
    }

    /** `handle_mouse_drag(pos)`. */
    method HandleMouseDrag(px: real, py: real)
      requires Valid()
      modifies this
      ensures State() == Dragged(old(State()), px, py)
      ensures Valid()
    {
      if draggingObject.Some? {
        var i := draggingObject.value;
        var o := objects[i];
        var minX := LEFT_SIDEBAR_WIDTH as real + o.radius;
        var maxX := (WINDOW_WIDTH - TOOLBAR_WIDTH) as real - o.radius;
        var minY := o.radius;
        var maxY := WINDOW_HEIGHT as real - o.radius;
        objects := objects[i := o.(x := Clamp(minX, maxX, px), y := Clamp(minY, maxY, py))];
      }
    }

    /** `handle_selection(label)`. */
    method HandleSelection(item: string)
      requires Valid()
      modifies this
      ensures State() == SelectedByLabel(old(State()), item)
      ensures Valid()
    {
      var k := 0;
      while k < |objects|
        invariant 0 <= k <= |objects|
        invariant FirstLabelled(objects, k, item) == FirstLabelled(objects, 0, item)
        invariant State() == old(State())
      {
        if Label(objects[k]) == item {
          uiMode := "edit";
          selectedObject := Some(k);
          return;
        }
        k := k + 1;
      }
      uiMode := "";
      selectedObject := None;
    }

    /** `handle_slider_change` for the trail slider at `value`. */
    method HandleSliderChange(value: real)
      requires Valid()
      modifies this
      ensures State() == SliderChanged(old(State()), value)
      ensures Valid()
    {
      trailLength := Trunc(value);
      ghost var cut := SliderChanged(old(State()), value);
      var k := 0;
      while k < |objects|
        invariant 0 <= k <= |objects| == |cut.objects|
        invariant forall j :: 0 <= j < k ==> objects[j] == cut.objects[j]
        invariant forall j :: k <= j < |objects| ==> objects[j] == old(objects)[j]
        invariant State() == cut.(objects := objects)
      {
        objects := objects[k := CutTrail(objects[k], trailLength)];
        k := k + 1;
      }
      assert objects == cut.objects;
    }

    /** The scan shared by `obj in sim["objects"]` and `list.remove(obj)`. */
    method FindFirstEqual(v: UObject) returns (r: Option<nat>)
      ensures r == FirstEqual(objects, v, 0)
    {
      var k := 0;
      while k < |objects|
        invariant 0 <= k <= |objects|
        invariant FirstEqual(objects, v, k) == FirstEqual(objects, v, 0)
      {
        if objects[k] == v {
          return Some(k);
        }
        k := k + 1;
      }
      return None;
    }

    /** The confirm button of the open dialog: `if obj in objects:
        objects.remove(obj)`, then close the dialog. */
    method ConfirmDelete()
      requires Valid() && confirmDialog.Some?
      modifies this
      ensures State() == DialogPressed(old(State()), DialogConfirmButton).1
    {
      var target := confirmDialog.value.target;
      if target.Some? {
        var k := FindFirstEqual(objects[target.value]);
        if k.Some? {
          objects := objects[..k.value] + objects[k.value + 1..];
          draggingObject := AfterRemoval(draggingObject, k.value);
          uiMode := "";
          selectedObject := None;
        }
      }
      confirmDialog := None;
    }

    /** `handle_dialog_button_press`. */
    method HandleDialogButtonPress(e: Element) returns (handled: bool)
      requires Valid()
      modifies this
      ensures (handled, State()) == DialogPressed(old(State()), e)
      ensures Valid()
    {
      if confirmDialog.None? {
        return false;
      }
      if e == DialogConfirmButton {
        ConfirmDelete();
        return true;
      } else if e == DialogCancelButton {
        confirmDialog := None;
        return true;
      }
      return false;
    }

    /** `handle_button_press` as written, whose add button runs
        `add_object` as written. */
    method HandleButtonPress(e: Element, inp: Inputs, parseInt: IntParser, parseFloat: FloatParser)
      requires Valid()
      modifies this
      ensures State() == ButtonPressed(old(State()), e, inp, parseInt, parseFloat)
      ensures Valid()
    {
      var handled := HandleDialogButtonPress(e);
      if handled {
        return;
      }
      if e == AddObjectButton {
        AddObjectAsWritten(inp, parseInt, parseFloat);
      } else {
        HandleOtherButton(e);
      }
    }

    /** `handle_button_press` with the corrected `add_object`. */
    method HandleButtonPressFixed(e: Element, inp: Inputs, parseInt: IntParser, parseFloat: FloatParser)
      requires Valid()
      modifies this
      ensures State() == ButtonPressedFixed(old(State()), e, inp, parseInt, parseFloat)
      ensures Valid()
    {
      var handled := HandleDialogButtonPress(e);
      if handled {
        return;
      }
      if e == AddObjectButton {
        AddObject(inp, parseInt, parseFloat);
      } else {
        HandleOtherButton(e);
      }
    }

    /** The branches of `handle_button_press` after the dialog and add
        buttons. */
    method HandleOtherButton(e: Element)
      requires Valid()
      modifies this
      ensures State() == OtherPressed(old(State()), e)
      ensures Valid()
    {
      match e {
        case DeleteObjectButton =>
          if selectedObject.Some? {
            confirmDialog := Some(Dialog(selectedObject));
          }
        case PauseButton =>
          paused := !paused;
        case ResetButton =>
          objects := [];
          selectedObject := None;
          draggingObject := None;
          if confirmDialog.Some? {
            confirmDialog := Some(Dialog(None));
          }
        case ToggleTrailButton =>
          trailEnabled := Some(!GetOr(trailEnabled, false));
        case ToggleVelocityVectorsButton =>
          vectorsEnabled := Some(!GetOr(vectorsEnabled, true));
        case _ =>
      }
    }
  }
}
