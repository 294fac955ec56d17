/** ui_actions.py: the handlers that change the dict-shaped `sim` of the
    newer user interface. Widget calls are dropped; the text of the input
    fields arrives as `Inputs`, and Python's `int()` and `float()` on text
    are the partial parsers `parseInt` and `parseFloat`. Each handler is a
    transition function on `UiState`, and the class `UiSim` carries the
    same fields and performs each handler in place, with its loops. */
module UiActions {
  import opened Numerics
  import opened Text
  import opened Config
  import opened ScenePhysics

  type IntParser = string -> Option<int>
  type FloatParser = string -> Option<real>

  /** An object dict of the newer interface (its colour is not modelled). A
      missing `"trail"` key is `None`. */
  datatype UObject = UObject(id: int, name: string, x: real, y: real, vx: real, vy: real,
                             mass: real, radius: real, shock: real, trail: Option<seq<TrailPoint>>)

  /** The texts of the name, mass, radius, vx and vy fields. */
  datatype Inputs = Inputs(name: string, mass: string, radius: string, vx: string, vy: string)

  /** The open confirmation dialog. `target` is the index of the object to
      delete, or `None` once that object is no longer in the list. */
  datatype Dialog = Dialog(target: Option<nat>)

  /** The entries of `sim` the handlers use, with the open dialog. Object
      references become indices into `objects`; `trailEnabled` and
      `vectorsEnabled` are `None` while the key is absent. */
  datatype UiState = UiState(objects: seq<UObject>, selectedObject: Option<nat>,
                             draggingObject: Option<nat>, uiMode: string, paused: bool,
                             trailEnabled: Option<bool>, vectorsEnabled: Option<bool>,
                             trailLength: int, objectIdCounter: int, confirmDialog: Option<Dialog>)

  /** Every reference points into the list. */
  predicate ValidState(s: UiState) {
    (s.selectedObject.Some? ==> s.selectedObject.value < |s.objects|) &&
    (s.draggingObject.Some? ==> s.draggingObject.value < |s.objects|) &&
    (s.confirmDialog.Some? && s.confirmDialog.value.target.Some? ==> s.confirmDialog.value.target.value < |s.objects|)
  }

  // ------------------------------------------------------------ add / edit

  /** A blank name becomes `DEFAULT_INPUTS["name"]`. */
  function AddedName(name: string): string {
    if name == "" then DEFAULT_NAME else name
  }

  /** `max(1, int(text))`, 10 when the text does not parse or is blank. */
  function AddedMass(text: string, parseInt: IntParser): (m: int)
    ensures m >= 1
    ensures IsBlank(text) || parseInt(text).None? ==> m == 10
    ensures !IsBlank(text) && parseInt(text).Some? && parseInt(text).value >= 1 ==> m == parseInt(text).value
  {
    if IsBlank(text) then 10
    else match parseInt(text) {
      case Some(m) => MaxInt(1, m)
      case None => 10
    }
  }

  /** `int(text)` capped at 100 with no lower bound, 10 when the text does
      not parse or is blank. */
  function AddedRadius(text: string, parseInt: IntParser): (r: int)
    ensures r <= 100
    ensures IsBlank(text) || parseInt(text).None? ==> r == 10
    ensures !IsBlank(text) && parseInt(text).Some? && parseInt(text).value <= 100 ==> r == parseInt(text).value
  {
    if IsBlank(text) then 10
    else match parseInt(text) {
      case Some(r) => if r > 100 then 100 else r
      case None => 10
    }
  }

  /** `float(text)`, or `fallback` when it does not parse. */
  function FloatOr(text: string, parseFloat: FloatParser, fallback: real): real {
    match parseFloat(text) {
      case Some(v) => v
      case None => fallback
    }
  }

  /** The centre of the simulation area, where `add_object` places a body. */
  const SPAWN_X: int := (LEFT_SIDEBAR_WIDTH + (WINDOW_WIDTH - TOOLBAR_WIDTH)) / 2
  const SPAWN_Y: int := WINDOW_HEIGHT / 2

  /** The dict `add_object` builds. */
  function NewObject(id: int, inp: Inputs, parseInt: IntParser, parseFloat: FloatParser): (o: UObject)
    ensures o.id == id && o.x == 600.0 && o.y == 350.0 && o.trail.None?
    ensures o.mass >= 1.0 && o.radius <= 100.0 && o.shock == 0.001 * o.mass
    ensures inp.name != "" ==> o.name == inp.name
  {
    var mass := AddedMass(inp.mass, parseInt);
    UObject(id, AddedName(inp.name), SPAWN_X as real, SPAWN_Y as real,
            FloatOr(inp.vx, parseFloat, 0.0), FloatOr(inp.vy, parseFloat, 0.0),
            mass as real, AddedRadius(inp.radius, parseInt) as real, 0.001 * mass as real, None)
  }

  /** `add_object` as written: the id is `object_id_counter`, and the
      incremented counter is a local that is never stored back. */
  function AddedAsWritten(s: UiState, inp: Inputs, parseInt: IntParser, parseFloat: FloatParser): (t: UiState)
    ensures ValidState(s) ==> ValidState(t)
  {
    s.(objects := s.objects + [NewObject(s.objectIdCounter, inp, parseInt, parseFloat)],
       selectedObject := None)
  }

  /** `add_object` with the counter stored back, as its docstring ("a unique
      ID") intends. */
  function Added(s: UiState, inp: Inputs, parseInt: IntParser, parseFloat: FloatParser): (t: UiState)
    ensures ValidState(s) ==> ValidState(t)
  {
    s.(objects := s.objects + [NewObject(s.objectIdCounter, inp, parseInt, parseFloat)],
       objectIdCounter := s.objectIdCounter + 1,
       selectedObject := None)
  }

  /** The object after `update_selected_object`: the name is always
      overwritten; mass `max(1, int)`, radius `max(1, min(100, int))`, vx and
      vy `float`, each left alone when its text does not parse. */
  function EditedObject(o: UObject, inp: Inputs, parseInt: IntParser, parseFloat: FloatParser): (e: UObject)
    ensures e.id == o.id && e.x == o.x && e.y == o.y && e.shock == o.shock && e.trail == o.trail
    ensures e.name == inp.name
    ensures parseInt(inp.mass).Some? ==> e.mass >= 1.0
    ensures parseInt(inp.mass).None? ==> e.mass == o.mass
    ensures parseInt(inp.radius).Some? ==> 1.0 <= e.radius <= 100.0
    ensures parseInt(inp.radius).None? ==> e.radius == o.radius
    ensures parseFloat(inp.vx).None? ==> e.vx == o.vx
    ensures parseFloat(inp.vy).None? ==> e.vy == o.vy
  {
    var mass := match parseInt(inp.mass) {
      case Some(m) => MaxInt(1, m) as real
      case None => o.mass
    };
    var radius := match parseInt(inp.radius) {
      case Some(r) => MaxInt(1, MinInt(100, r)) as real
      case None => o.radius
    };
    o.(name := inp.name, mass := mass, radius := radius,
       vx := FloatOr(inp.vx, parseFloat, o.vx), vy := FloatOr(inp.vy, parseFloat, o.vy))
  }

  function Edited(s: UiState, inp: Inputs, parseInt: IntParser, parseFloat: FloatParser): (t: UiState)
    requires ValidState(s)
    ensures ValidState(t)
  {
    match s.selectedObject {
      case None => s
      case Some(i) => s.(objects := s.objects[i := EditedObject(s.objects[i], inp, parseInt, parseFloat)])
    }
  }

  // ------------------------------------------------------- labels, selection

  /** `f"{obj['id']}"`, followed by `" (name)"` when the name is not empty. */
  function Label(o: UObject): string {
    IntToString(o.id) + (if o.name != "" then " (" + o.name + ")" else "")
  }

  /** The item list `refresh_object_list` shows. */
  function ObjectLabels(objs: seq<UObject>): seq<string> {
    seq(|objs|, k requires 0 <= k < |objs| => Label(objs[k]))
  }

  /** `select_object`: the edit page and the selection. */
  function Select(s: UiState, k: nat): UiState {
    s.(uiMode := "edit", selectedObject := Some(k))
  }

  /** `deselect_object`. */
  function Deselect(s: UiState): UiState {
    s.(uiMode := "", selectedObject := None)
  }

  /** The first object from index `k` on whose label is `label`. */
  function FirstLabelled(objs: seq<UObject>, k: nat, item: string): (r: Option<nat>)
    requires k <= |objs|
    ensures r.Some? ==> k <= r.value < |objs| && Label(objs[r.value]) == item &&
                        forall j :: k <= j < r.value ==> Label(objs[j]) != item
    ensures r.None? ==> forall j :: k <= j < |objs| ==> Label(objs[j]) != item
    decreases |objs| - k
  {
    if k == |objs| then None
    else if Label(objs[k]) == item then Some(k)
    else FirstLabelled(objs, k + 1, item)
  }

  /** `handle_selection(label)`. */
  function SelectedByLabel(s: UiState, item: string): (t: UiState)
    ensures ValidState(s) ==> ValidState(t)
  {
    match FirstLabelled(s.objects, 0, item) {
      case Some(k) => Select(s, k)
      case None => Deselect(s)
    }
  }

  // ---------------------------------------------------------- mouse

  /** The simulation area `[LEFT_SIDEBAR_WIDTH, WINDOW_WIDTH - TOOLBAR_WIDTH)
      × [0, WINDOW_HEIGHT)`. */
  predicate InSimArea(x: real, y: real) {
    LEFT_SIDEBAR_WIDTH as real <= x < (WINDOW_WIDTH - TOOLBAR_WIDTH) as real &&
    0.0 <= y < WINDOW_HEIGHT as real
  }

  /** `((x - obj.x)**2 + (y - obj.y)**2)**0.5 < obj.radius`. */
  predicate UHit(o: UObject, x: real, y: real, sqrt: SqrtFn) {
    sqrt((x - o.x) * (x - o.x) + (y - o.y) * (y - o.y)) < o.radius
  }

  /** The first object from index `k` on under the cursor. */
  function FirstUHit(objs: seq<UObject>, k: nat, x: real, y: real, sqrt: SqrtFn): (r: Option<nat>)
    requires k <= |objs|
    ensures r.Some? ==> k <= r.value < |objs| && UHit(objs[r.value], x, y, sqrt) &&
                        forall j :: k <= j < r.value ==> !UHit(objs[j], x, y, sqrt)
    ensures r.None? ==> forall j :: k <= j < |objs| ==> !UHit(objs[j], x, y, sqrt)
    decreases |objs| - k
  {
    if k == |objs| then None
    else if UHit(objs[k], x, y, sqrt) then Some(k)
    else FirstUHit(objs, k + 1, x, y, sqrt)
  }

  /** `handle_mouse_click(pos)`. */
  function Clicked(s: UiState, x: real, y: real, sqrt: SqrtFn): (t: UiState)
    ensures ValidState(s) ==> ValidState(t)
  {
    if !InSimArea(x, y) then s
    else match FirstUHit(s.objects, 0, x, y, sqrt) {
      case Some(k) => Select(s.(draggingObject := Some(k)), k)
      case None => Deselect(s)
    }
  }

  /** The object moved to the cursor, clamped to
      `[LEFT_SIDEBAR_WIDTH + r, WINDOW_WIDTH - TOOLBAR_WIDTH - r] × [r, WINDOW_HEIGHT - r]`:
      a body no wider than the area stays wholly inside it, and lands on
      the cursor itself whenever the cursor leaves room for it. */
  function DraggedTo(o: UObject, px: real, py: real): (d: UObject)
    ensures d == o.(x := d.x, y := d.y)
    ensures 2.0 * o.radius <= 800.0 ==> 200.0 + o.radius <= d.x <= 1000.0 - o.radius
    ensures 2.0 * o.radius <= 700.0 ==> o.radius <= d.y <= 700.0 - o.radius
    ensures 200.0 + o.radius <= px <= 1000.0 - o.radius ==> d.x == px
    ensures o.radius <= py <= 700.0 - o.radius ==> d.y == py
  {
    o.(x := Clamp(LEFT_SIDEBAR_WIDTH as real + o.radius, (WINDOW_WIDTH - TOOLBAR_WIDTH) as real - o.radius, px),
       y := Clamp(o.radius, WINDOW_HEIGHT as real - o.radius, py))
  }

  /** `handle_mouse_drag(pos)`. */
  function Dragged(s: UiState, px: real, py: real): (t: UiState)
    requires ValidState(s)
    ensures ValidState(t)
  {
    match s.draggingObject {
      case None => s
      case Some(i) => s.(objects := s.objects[i := DraggedTo(s.objects[i], px, py)])
    }
  }

  // ---------------------------------------------------------- trail slider

  /** Python's `t[start:]`: a negative start counts from the end. */
  function SliceFrom<T>(t: seq<T>, start: int): (r: seq<T>)
    ensures |r| <= |t| && r == t[|t| - |r|..]
    ensures start < 0 ==> |r| == MinInt(-start, |t|)
    ensures start >= 0 ==> |r| == |t| - MinInt(start, |t|)
  {
    if start < 0 then t[MaxInt(0, |t| + start)..] else t[MinInt(start, |t|)..]
  }

  /** `obj["trail"][-n:]` for objects that have a trail. */
  function CutTrail(o: UObject, n: int): UObject {
    match o.trail {
      case None => o
      case Some(t) => o.(trail := Some(SliceFrom(t, -n)))
    }
  }

  /** `handle_slider_change` for the trail slider at `value`. */
  function SliderChanged(s: UiState, value: real): (t: UiState)
    ensures ValidState(s) ==> ValidState(t)
  {
    var n := Trunc(value);
    s.(trailLength := n, objects := seq(|s.objects|, k requires 0 <= k < |s.objects| => CutTrail(s.objects[k], n)))
  }

  // ---------------------------------------------------------- buttons

  datatype Element =
    | AddObjectButton | DeleteObjectButton | SettingsButton | ReturnButtonSettings
    | ReturnButtonEdit | PauseButton | ResetButton | ToggleTrailButton
    | ToggleVelocityVectorsButton | DialogConfirmButton | DialogCancelButton | OtherElement

  /** The first index from `k` on holding an object equal to `v`: Python's
      `in` and `list.remove` compare dicts by value. */
  function FirstEqual(objs: seq<UObject>, v: UObject, k: nat): (r: Option<nat>)
    requires k <= |objs|
    ensures r.Some? ==> k <= r.value < |objs| && objs[r.value] == v &&
                        forall j :: k <= j < r.value ==> objs[j] != v
    ensures r.None? ==> forall j :: k <= j < |objs| ==> objs[j] != v
    decreases |objs| - k
  {
    if k == |objs| then None
    else if objs[k] == v then Some(k)
    else FirstEqual(objs, v, k + 1)
  }

  /** A reference after the object at index `k` is removed: the removed
      object is no longer in the list, later ones move down by one. */
  function AfterRemoval(r: Option<nat>, k: nat): Option<nat> {
    match r {
      case None => None
      case Some(d) => if d == k then None else if d > k then Some(d - 1) else Some(d)
    }
  }

  /** A reference to any object but the removed one still points at that
      object, and only the removed one's reference is dropped. */
  lemma AfterRemovalFollows(a: seq<UObject>, r: Option<nat>, k: nat)
    requires k < |a| && (r.Some? ==> r.value < |a|)
    ensures AfterRemoval(r, k).None? <==> r.None? || r.value == k
    ensures AfterRemoval(r, k).Some? ==>
              AfterRemoval(r, k).value < |a| - 1 && (a[..k] + a[k + 1..])[AfterRemoval(r, k).value] == a[r.value]
  {
  }

  /** `handle_dialog_button_press`: whether the press was the dialog's, and
      the new state. */
  function DialogPressed(s: UiState, e: Element): (r: (bool, UiState))
    requires ValidState(s)
    ensures ValidState(r.1)
    ensures !r.0 ==> r.1 == s
  {
    if s.confirmDialog.None? then (false, s)
    else if e == DialogConfirmButton then
      var closed := s.(confirmDialog := None);
      match s.confirmDialog.value.target {
        case None => (true, closed)
        case Some(t) =>
          match FirstEqual(s.objects, s.objects[t], 0) {
            case None => (true, closed)
            case Some(k) =>
              AfterRemovalFollows(s.objects, s.draggingObject, k);
              (true, Deselect(closed.(objects := s.objects[..k] + s.objects[k + 1..],
                                      draggingObject := AfterRemoval(s.draggingObject, k))))
          }
      }
    else if e == DialogCancelButton then (true, s.(confirmDialog := None))
    else (false, s)
  }

  function GetOr(b: Option<bool>, fallback: bool): bool {
    if b.Some? then b.value else fallback
  }

  /** The reset button: the list is emptied and the selection cleared. The
      source keeps its references to a dragged dict and to a dialog's
      target, which are then no longer in the list; the model drops them. */
  function ResetPressed(s: UiState): UiState {
    s.(objects := [], selectedObject := None, draggingObject := None,
       confirmDialog := if s.confirmDialog.Some? then Some(Dialog(None)) else None)
  }

  /** `handle_button_press` as written: the dialog buttons first, then the
      add button runs `add_object` as written (`AddedAsWritten`), and every
      other button is `OtherPressed`. */
  function ButtonPressed(s: UiState, e: Element, inp: Inputs, parseInt: IntParser, parseFloat: FloatParser): (t: UiState)
    requires ValidState(s)
    ensures ValidState(t)
  {
    var d := DialogPressed(s, e);
    if d.0 then d.1
    else if e == AddObjectButton then AddedAsWritten(s, inp, parseInt, parseFloat)
    else OtherPressed(s, e)
  }

  /** `handle_button_press` with the corrected `add_object` (`Added`), which
      stores its counter back. */
  function ButtonPressedFixed(s: UiState, e: Element, inp: Inputs, parseInt: IntParser, parseFloat: FloatParser): (t: UiState)
    requires ValidState(s)
    ensures ValidState(t)
  {
    var d := DialogPressed(s, e);
    if d.0 then d.1
    else if e == AddObjectButton then Added(s, inp, parseInt, parseFloat)
    else OtherPressed(s, e)
  }

  /** The branches of `handle_button_press` after the dialog and add
      buttons. Settings and return buttons only switch pages. */
  function OtherPressed(s: UiState, e: Element): (t: UiState)
    requires ValidState(s)
    ensures ValidState(t)
  {
    match e {
      case DeleteObjectButton =>
        if s.selectedObject.Some? then s.(confirmDialog := Some(Dialog(s.selectedObject))) else s
      case PauseButton => s.(paused := !s.paused)
      case ResetButton => ResetPressed(s)
      case ToggleTrailButton => s.(trailEnabled := Some(!GetOr(s.trailEnabled, false)))
      case ToggleVelocityVectorsButton => s.(vectorsEnabled := Some(!GetOr(s.vectorsEnabled, true)))
      case _ => s
    }
  }
}
