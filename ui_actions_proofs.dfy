/** What the handlers of ui_actions.py promise, proved of the transition
    functions in `UiActions`. */
module UiActionsProofs {
  import opened Numerics
  import opened Text
  import opened ScenePhysics
  import opened UiActions

  // ------------------------------------------------------------- labels

  /** A label starts with the printed id, followed by nothing or by a space. */
  lemma LabelShape(o: UObject)
    ensures |Label(o)| >= |IntToString(o.id)|
    ensures Label(o)[..|IntToString(o.id)|] == IntToString(o.id)
    ensures |Label(o)| > |IntToString(o.id)| ==> Label(o)[|IntToString(o.id)|] == ' '
    ensures forall i :: 0 <= i < |IntToString(o.id)| ==> Label(o)[i] != ' '
  {
    var s := IntToString(o.id);
    var rest := if o.name != "" then " (" + o.name + ")" else "";
    assert Label(o) == s + rest;
    assert (s + rest)[..|s|] == s;
    if o.name != "" {
      assert (s + rest)[|s|] == rest[0] == ' ';
    }
  }

  /** Equal labels mean equal ids: the id is the label up to its first space,
      and a printed integer holds no space. */
  lemma LabelInjective(a: UObject, b: UObject)
    requires Label(a) == Label(b)
    ensures a.id == b.id
  {
    var sa, sb := IntToString(a.id), IntToString(b.id);
    LabelShape(a);
    LabelShape(b);
    if |sa| != |sb| {
      assert false;
    } else {
      assert sa == Label(a)[..|sa|] == Label(b)[..|sb|] == sb;
      IntToStringInjective(a.id, b.id);
    }
  }

  /** The id invariant `add_object` is meant to keep: ids are distinct, and
      below the counter, so the next one is fresh. */
  predicate IdsUnique(s: UiState) {
    (forall i, j :: 0 <= i < j < |s.objects| ==> s.objects[i].id != s.objects[j].id) &&
    (forall i :: 0 <= i < |s.objects| ==> s.objects[i].id < s.objectIdCounter)
  }

  /** With unique ids, choosing an object's entry in the list selects that
      very object. */
  lemma LabelSelectsObject(s: UiState, k: nat)
    requires IdsUnique(s) && k < |s.objects|
    ensures SelectedByLabel(s, Label(s.objects[k])) == Select(s, k)
  {
    var r := FirstLabelled(s.objects, 0, Label(s.objects[k]));
    assert r.Some?;
    if r.value < k {
      LabelInjective(s.objects[r.value], s.objects[k]);
      assert false;
    }
  }

  // --------------------------------------------------- the id counter

  /** `add_object` as written: two adds in a row hand out the same id. */
  lemma TwoAddsShareId(s: UiState, i1: Inputs, i2: Inputs, parseInt: IntParser, parseFloat: FloatParser)
    ensures var s2 := AddedAsWritten(AddedAsWritten(s, i1, parseInt, parseFloat), i2, parseInt, parseFloat);
            |s2.objects| == |s.objects| + 2 &&
            s2.objects[|s.objects|].id == s2.objects[|s.objects| + 1].id
  {
  }

  /** ... so two unnamed bodies added in a row are listed under one label,
      and choosing the newer entry selects an older object. */
  lemma {:induction false} TwoAddsSelectOlder(s: UiState, i1: Inputs, i2: Inputs, parseInt: IntParser, parseFloat: FloatParser)
    requires i1.name == i2.name
    ensures var s2 := AddedAsWritten(AddedAsWritten(s, i1, parseInt, parseFloat), i2, parseInt, parseFloat);
            var n := |s.objects|;
            |s2.objects| == n + 2 &&
            SelectedByLabel(s2, Label(s2.objects[n + 1])).selectedObject.Some? &&
            SelectedByLabel(s2, Label(s2.objects[n + 1])).selectedObject.value <= n
  {
    var s2 := AddedAsWritten(AddedAsWritten(s, i1, parseInt, parseFloat), i2, parseInt, parseFloat);
    var n := |s.objects|;
    assert s2.objects[n] == NewObject(s.objectIdCounter, i1, parseInt, parseFloat);
    assert s2.objects[n + 1] == NewObject(s.objectIdCounter, i2, parseInt, parseFloat);
    assert Label(s2.objects[n]) == Label(s2.objects[n + 1]);
    var r := FirstLabelled(s2.objects, 0, Label(s2.objects[n + 1]));
    assert r.Some? && r.value <= n;
  }

  /** The corrected `add_object` keeps ids unique. */
  lemma AddedKeepsIdsUnique(s: UiState, inp: Inputs, parseInt: IntParser, parseFloat: FloatParser)
    requires IdsUnique(s)
    ensures IdsUnique(Added(s, inp, parseInt, parseFloat))
  {
    var t := Added(s, inp, parseInt, parseFloat);
    assert forall i :: 0 <= i < |s.objects| ==> t.objects[i] == s.objects[i];
  }

  /** With the counter stored back, two adds in a row make two bodies each
      of which its own entry in the list selects. */
  lemma {:induction false} TwoAddsSelectEach(s: UiState, i1: Inputs, i2: Inputs, parseInt: IntParser, parseFloat: FloatParser)
    requires IdsUnique(s)
    ensures var s2 := Added(Added(s, i1, parseInt, parseFloat), i2, parseInt, parseFloat);
            var n := |s.objects|;
            |s2.objects| == n + 2 &&
            SelectedByLabel(s2, Label(s2.objects[n])) == Select(s2, n) &&
            SelectedByLabel(s2, Label(s2.objects[n + 1])) == Select(s2, n + 1)
  {
    var s1 := Added(s, i1, parseInt, parseFloat);
    var s2 := Added(s1, i2, parseInt, parseFloat);
    AddedKeepsIdsUnique(s, i1, parseInt, parseFloat);
    AddedKeepsIdsUnique(s1, i2, parseInt, parseFloat);
    LabelSelectsObject(s2, |s.objects|);
    LabelSelectsObject(s2, |s.objects| + 1);
  }

  /** Two object lists that differ in anything but ids. */
  predicate SameIds(a: seq<UObject>, b: seq<UObject>) {
    |a| == |b| && forall k :: 0 <= k < |a| ==> a[k].id == b[k].id
  }

  lemma SameIdsKeepUnique(s: UiState, t: UiState)
    requires IdsUnique(s) && SameIds(s.objects, t.objects) && t.objectIdCounter == s.objectIdCounter
    ensures IdsUnique(t)
  {
  }

  /** Removing one object keeps the others' ids unique. */
  lemma RemovalKeepsUnique(s: UiState, k: nat, t: UiState)
    requires IdsUnique(s) && k < |s.objects|
    requires t.objects == s.objects[..k] + s.objects[k + 1..] && t.objectIdCounter == s.objectIdCounter
    ensures IdsUnique(t)
  {
    forall i | 0 <= i < |t.objects|
      ensures t.objects[i] == s.objects[if i < k then i else i + 1]
    {
    }
  }

  /** The dialog keeps ids unique: confirming removes one object. */
  lemma DialogKeepsIdsUnique(s: UiState, e: Element)
    requires ValidState(s) && IdsUnique(s)
    ensures IdsUnique(DialogPressed(s, e).1)
  {
    var d := DialogPressed(s, e);
    if |d.1.objects| != |s.objects| {
      var k := FirstEqual(s.objects, s.objects[s.confirmDialog.value.target.value], 0).value;
      RemovalKeepsUnique(s, k, d.1);
    } else {
      assert d.1.objects == s.objects;
    }
  }

  /** With the corrected `add_object`, every button keeps ids unique. */
  lemma ButtonKeepsIdsUnique(s: UiState, e: Element, inp: Inputs, parseInt: IntParser, parseFloat: FloatParser)
    requires ValidState(s) && IdsUnique(s)
    ensures IdsUnique(ButtonPressedFixed(s, e, inp, parseInt, parseFloat))
  {
    if DialogPressed(s, e).0 {
      DialogKeepsIdsUnique(s, e);
    } else if e == AddObjectButton {
      AddedKeepsIdsUnique(s, inp, parseInt, parseFloat);
    }
  }

  /** `handle_button_press` as written: every button but add keeps ids
      unique; the add button runs `add_object` as written, whose new body
      takes the counter's id and leaves the counter, so the invariant is
      lost and the next add repeats that id (`TwoAddsShareId`). */
  lemma ButtonAsWrittenIds(s: UiState, e: Element, inp: Inputs, parseInt: IntParser, parseFloat: FloatParser)
    requires ValidState(s) && IdsUnique(s)
    ensures e != AddObjectButton ==> IdsUnique(ButtonPressed(s, e, inp, parseInt, parseFloat))
    ensures ButtonPressed(s, AddObjectButton, inp, parseInt, parseFloat) == AddedAsWritten(s, inp, parseInt, parseFloat)
    ensures !IdsUnique(ButtonPressed(s, AddObjectButton, inp, parseInt, parseFloat))
  {
    if DialogPressed(s, e).0 {
      DialogKeepsIdsUnique(s, e);
    }
    var t := ButtonPressed(s, AddObjectButton, inp, parseInt, parseFloat);
    assert t.objects[|s.objects|].id == t.objectIdCounter;
  }

  /** The edit form never changes ids. */
  lemma EditKeepsIdsUnique(s: UiState, inp: Inputs, parseInt: IntParser, parseFloat: FloatParser)
    requires ValidState(s) && IdsUnique(s)
    ensures IdsUnique(Edited(s, inp, parseInt, parseFloat))
  {
    var t := Edited(s, inp, parseInt, parseFloat);
    assert SameIds(s.objects, t.objects);
    SameIdsKeepUnique(s, t);
  }

  /** Dragging never changes ids. */
  lemma DragKeepsIdsUnique(s: UiState, x: real, y: real)
    requires ValidState(s) && IdsUnique(s)
    ensures IdsUnique(Dragged(s, x, y))
  {
    var t := Dragged(s, x, y);
    assert SameIds(s.objects, t.objects);
    SameIdsKeepUnique(s, t);
  }

  /** The trail slider never changes ids. */
  lemma SliderKeepsIdsUnique(s: UiState, value: real)
    requires IdsUnique(s)
    ensures IdsUnique(SliderChanged(s, value))
  {
    var t := SliderChanged(s, value);
    assert SameIds(s.objects, t.objects);
    SameIdsKeepUnique(s, t);
  }

  /** Clicks and list selections leave the list alone. */
  lemma SelectionKeepsIdsUnique(s: UiState, x: real, y: real, sqrt: SqrtFn, item: string)
    requires IdsUnique(s)
    ensures IdsUnique(Clicked(s, x, y, sqrt))
    ensures IdsUnique(SelectedByLabel(s, item))
  {
    assert Clicked(s, x, y, sqrt).objects == s.objects;
    assert SelectedByLabel(s, item).objects == s.objects;
  }

  // ----------------------------------------------------------- deletion

  /** Confirming the dialog removes the first object equal to its target
      (Python compares dicts by value), closes the dialog and clears the
      selection; a dragged object that was not removed is still the one
      dragged. */
  lemma ConfirmRemovesTarget(s: UiState, t: nat)
    requires ValidState(s) && s.confirmDialog == Some(Dialog(Some(t)))
    ensures var r := DialogPressed(s, DialogConfirmButton);
            var k := FirstEqual(s.objects, s.objects[t], 0);
            r.0 && r.1.confirmDialog.None? && r.1.selectedObject.None? && r.1.uiMode == "" &&
            k.Some? && k.value <= t && s.objects[k.value] == s.objects[t] &&
            r.1.objects == s.objects[..k.value] + s.objects[k.value + 1..] &&
            multiset(r.1.objects) + multiset{s.objects[t]} == multiset(s.objects) &&
            (s.draggingObject.Some? && s.draggingObject.value != k.value ==>
               r.1.draggingObject.Some? && r.1.objects[r.1.draggingObject.value] == s.objects[s.draggingObject.value])
  {
    var k := FirstEqual(s.objects, s.objects[t], 0);
    assert k.Some?;
    RemovalMultiset(s.objects, k.value);
    AfterRemovalFollows(s.objects, s.draggingObject, k.value);
  }

  lemma RemovalMultiset(a: seq<UObject>, i: nat)
    requires i < |a|
    ensures multiset(a[..i] + a[i + 1..]) + multiset{a[i]} == multiset(a)
  {
    assert a == a[..i] + [a[i]] + a[i + 1..];
  }

  /** With unique ids the object removed is exactly the dialog's target. */
  lemma ConfirmRemovesExactlyTarget(s: UiState, t: nat)
    requires ValidState(s) && IdsUnique(s) && s.confirmDialog == Some(Dialog(Some(t)))
    ensures DialogPressed(s, DialogConfirmButton).1.objects == s.objects[..t] + s.objects[t + 1..]
  {
    var k := FirstEqual(s.objects, s.objects[t], 0);
    ConfirmRemovesTarget(s, t);
    assert k.value == t;
  }

  /** Cancelling closes the dialog and changes nothing else; without an open
      dialog no press is the dialog's. */
  lemma CancelOnlyCloses(s: UiState, e: Element)
    requires ValidState(s)
    ensures s.confirmDialog.Some? ==> DialogPressed(s, DialogCancelButton) == (true, s.(confirmDialog := None))
    ensures s.confirmDialog.None? ==> DialogPressed(s, e) == (false, s)
  {
  }

  /** The delete button asks before deleting: it only opens the dialog on
      the selection, and does nothing when nothing is selected. */
  lemma DeleteAsks(s: UiState, inp: Inputs, parseInt: IntParser, parseFloat: FloatParser)
    requires ValidState(s)
    ensures var t := ButtonPressed(s, DeleteObjectButton, inp, parseInt, parseFloat);
            t.objects == s.objects &&
            (s.selectedObject.Some? ==> t.confirmDialog == Some(Dialog(s.selectedObject))) &&
            (s.selectedObject.None? ==> t == s)
  {
  }

  /** Reset empties the list and leaves no reference behind. */
  lemma ResetClears(s: UiState, inp: Inputs, parseInt: IntParser, parseFloat: FloatParser)
    requires ValidState(s)
    ensures var t := ButtonPressed(s, ResetButton, inp, parseInt, parseFloat);
            t.objects == [] && t.selectedObject.None? && t.draggingObject.None? &&
            t.objectIdCounter == s.objectIdCounter && t.paused == s.paused
  {
  }

  // -------------------------------------------------------------- toggles

  /** Pause flips, and a second press restores the state. */
  lemma PauseToggles(s: UiState, inp: Inputs, parseInt: IntParser, parseFloat: FloatParser)
    requires ValidState(s)
    ensures var t := ButtonPressed(s, PauseButton, inp, parseInt, parseFloat);
            ValidState(t) && t == s.(paused := !s.paused) &&
            ButtonPressed(t, PauseButton, inp, parseInt, parseFloat) == s
  {
  }

  /** An absent `"trail_enabled"` reads as off and an absent
      `"velocity_vectors_enabled"` as on; each button flips its flag. */
  lemma FlagsToggle(s: UiState, inp: Inputs, parseInt: IntParser, parseFloat: FloatParser)
    requires ValidState(s)
    ensures s.trailEnabled.None? ==> ButtonPressed(s, ToggleTrailButton, inp, parseInt, parseFloat).trailEnabled == Some(true)
    ensures s.vectorsEnabled.None? ==> ButtonPressed(s, ToggleVelocityVectorsButton, inp, parseInt, parseFloat).vectorsEnabled == Some(false)
    ensures s.trailEnabled.Some? ==> ButtonPressed(s, ToggleTrailButton, inp, parseInt, parseFloat).trailEnabled == Some(!s.trailEnabled.value)
    ensures s.vectorsEnabled.Some? ==> ButtonPressed(s, ToggleVelocityVectorsButton, inp, parseInt, parseFloat).vectorsEnabled == Some(!s.vectorsEnabled.value)
  {
  }

  // --------------------------------------------------------- mouse, slider

  /** A click outside the simulation area does nothing; inside, it selects
      and starts dragging the first object under the cursor, or deselects
      when there is none. The list itself never changes. */
  lemma ClickSelectsFirstHit(s: UiState, x: real, y: real, sqrt: SqrtFn)
    ensures var t := Clicked(s, x, y, sqrt);
            t.objects == s.objects &&
            (!InSimArea(x, y) ==> t == s) &&
            (InSimArea(x, y) && t.selectedObject.Some? ==>
               var k := t.selectedObject.value;
               k < |s.objects| && t.draggingObject == Some(k) && t.uiMode == "edit" &&
               UHit(s.objects[k], x, y, sqrt) && forall j :: 0 <= j < k ==> !UHit(s.objects[j], x, y, sqrt)) &&
            (InSimArea(x, y) && t.selectedObject.None? ==>
               t.uiMode == "" && t.draggingObject == s.draggingObject &&
               forall j :: 0 <= j < |s.objects| ==> !UHit(s.objects[j], x, y, sqrt))
  {
  }

  /** The trail slider keeps the newest `n` points of each trail, where `n`
      is the value truncated; at `n == 0` Python's `t[-0:]` keeps the whole
      trail. Nothing but trails and the stored length changes. */
  lemma SliderKeepsNewest(s: UiState, value: real, k: nat)
    requires k < |s.objects|
    ensures var t := SliderChanged(s, value);
            var n := Trunc(value);
            var o := s.objects[k];
            |t.objects| == |s.objects| && t.trailLength == n &&
            t.objects[k] == o.(trail := t.objects[k].trail) &&
            (o.trail.None? ==> t.objects[k].trail.None?) &&
            (o.trail.Some? && n >= 1 ==>
               t.objects[k].trail == Some(o.trail.value[|o.trail.value| - MinInt(n, |o.trail.value|)..])) &&
            (o.trail.Some? && n == 0 ==> t.objects[k].trail == o.trail)
  {
  }

  /** Editing changes only the selected object, and never its id, position,
      shock or trail. */
  lemma EditTouchesSelectionOnly(s: UiState, inp: Inputs, parseInt: IntParser, parseFloat: FloatParser, k: nat)
    requires ValidState(s) && k < |s.objects|
    ensures var t := Edited(s, inp, parseInt, parseFloat);
            |t.objects| == |s.objects| && t.objects[k].id == s.objects[k].id &&
            t.objects[k].x == s.objects[k].x && t.objects[k].y == s.objects[k].y &&
            (s.selectedObject != Some(k) ==> t.objects[k] == s.objects[k]) &&
            t.(objects := s.objects) == s
  {
  }
}
