/** components.py: element creation from definition dicts and the two
    automatic layouts. Widgets are values holding what the layout reads
    (type, name, size, visibility); a placed widget adds its position. The
    pygame_gui manager is dropped, and `data_sources.get_options` is the
    parameter `getOptions`. */
module Components {
  import opened Numerics
  import opened Config

  /** What building a layout can raise: `edef['name']` on a labelled
      definition that has no name (KeyError), or a definition whose type has
      no widget class, whose `None` the layout then dereferences
      (AttributeError). */
  datatype Fault = MissingName | NoWidget

  datatype Outcome<T> = Done(value: T) | Raised(fault: Fault)

  /** `pygame.Rect`. */
  datatype Rect = Rect(x: int, y: int, width: int, height: int)

  /** An element definition dict. `None` is an absent key; the keys that
      only fill a widget's content (`text`, slider range, item list) are not
      modelled, apart from `text`. */
  datatype ElementDef = ElementDef(kind: Option<string>, name: Option<string>, labelText: Option<string>,
                                   text: Option<string>, width: Option<int>, height: Option<int>,
                                   visible: bool, options: Option<seq<string>>,
                                   optionsSource: Option<string>, align: Option<string>)

  datatype Widget = Widget(kind: string, name: Option<string>, width: int, height: int, visible: bool)

  datatype Placed = Placed(w: Widget, x: int, y: int)

  /** The keys of `ELEMENT_CLASSES`. */
  const ELEMENT_TYPES: set<string> := {"button", "label", "text_input", "slider", "selection_list", "text_box", "dropdown"}

  const DEFAULT_WIDTH: int := SIDEBAR_WIDTH - 2 * MARGIN

  /** `ELEMENT_META[t]["default_height"]`, or 30 for a type without metadata. */
  function DefaultHeight(kind: string): int {
    if kind == "button" then 40 else if kind == "selection_list" then 150 else 30
  }

  // ------------------------------------------------------------- creation

  /** `create_element_class`: `None` for an unknown type or a dropdown
      without options; otherwise a widget of the given size, the missing
      dimensions taken from the defaults. A non-empty name is applied. */
  function CreateElementClass(kind: Option<string>, name: Option<string>, width: Option<int>,
                              height: Option<int>, visible: bool, options: seq<string>): (r: Option<Widget>)
    ensures r.None? <==> kind.None? || kind.value !in ELEMENT_TYPES || (kind.value == "dropdown" && options == [])
    ensures r.Some? ==> r.value.kind == kind.value && r.value.visible == visible
    ensures r.Some? && width.None? ==> r.value.width == 180
    ensures r.Some? && width.Some? ==> r.value.width == width.value
    ensures r.Some? && height.None? ==> r.value.height in {30, 40, 150}
    ensures r.Some? && height.Some? ==> r.value.height == height.value
  {
    if kind.None? || kind.value !in ELEMENT_TYPES then None
    else if kind.value == "dropdown" && options == [] then None
    else Some(Widget(kind.value, if name.Some? && name.value != "" then name else None,
                     if width.Some? then width.value else DEFAULT_WIDTH,
                     if height.Some? then height.value else DefaultHeight(kind.value), visible))
  }

  /** `_create_element`: nothing for a dropdown without options, a fault,
      or the element list; the element itself may be `None`. */
  datatype Created = Skipped | Elements(els: seq<Option<Widget>>) | Failed(fault: Fault)

  /** The dropdown options after `options_source` has been consulted. */
  function DropdownOptions(d: ElementDef, getOptions: string -> seq<string>): Option<seq<string>> {
    if d.optionsSource.Some? && d.optionsSource.value != "" && (d.options.None? || d.options.value == [])
    then Some(getOptions(d.optionsSource.value))
    else d.options
  }

  /** `_create_element`. A definition with a `label` key yields its label,
      named after the definition, before the element itself. */
  function CreateElement(d: ElementDef, getOptions: string -> seq<string>): (c: Created)
    ensures c.Skipped? <==> (d.kind == Some("dropdown") &&
                            (DropdownOptions(d, getOptions).None? || DropdownOptions(d, getOptions).value == []))
    ensures c.Failed? <==> (!c.Skipped? && d.labelText.Some? && d.name.None?)
    ensures c.Elements? && d.labelText.None? ==> |c.els| == 1
    ensures c.Elements? && d.labelText.Some? ==>
              |c.els| == 2 && c.els[0] == Some(Widget("label", Some(d.name.value + "_label"), 180, 30, true))
    ensures c.Elements? ==> (c.els[|c.els| - 1].None? <==> d.kind.None? || d.kind.value !in ELEMENT_TYPES)
  {
    var opts := if d.kind == Some("dropdown") then DropdownOptions(d, getOptions) else d.options;
    if d.kind == Some("dropdown") && (opts.None? || opts.value == []) then Skipped
    else
      var element := CreateElementClass(d.kind, d.name, d.width, d.height, d.visible,
                                        if opts.Some? then opts.value else []);
      if d.labelText.None? then Elements([element])
      else if d.name.None? then Failed(MissingName)
      else Elements([CreateElementClass(Some("label"), Some(d.name.value + "_label"), None, None, true, []), element])
  }

  // ------------------------------------------------------ vertical layout

  /** The y at which the next element goes below `ps`. */
  function NextY(ps: seq<Placed>, startY: int): int {
    if ps == [] then startY else ps[|ps| - 1].y + ps[|ps| - 1].w.height + PADDING
  }

  /** One definition's elements placed one under another below `ps`. */
  function StackOn(ps: seq<Placed>, els: seq<Option<Widget>>, x: int, startY: int): Outcome<seq<Placed>>
    decreases |els|
  {
    if els == [] then Done(ps)
    else if els[0].None? then Raised(NoWidget)
    else StackOn(ps + [Placed(els[0].value, x, NextY(ps, startY))], els[1..], x, startY)
  }

  /** What `_layout_vertical` produces for `defs`. */
  function Vertical(defs: seq<ElementDef>, startX: int, startY: int, getOptions: string -> seq<string>): Outcome<seq<Placed>>
    decreases |defs|
  {
    if defs == [] then Done([])
    else match Vertical(defs[..|defs| - 1], startX, startY, getOptions) {
      case Raised(f) => Raised(f)
      case Done(ps) =>
        match CreateElement(defs[|defs| - 1], getOptions) {
          case Skipped => Done(ps)
          case Failed(f) => Raised(f)
          case Elements(els) => StackOn(ps, els, startX + MARGIN, startY)
        }
    }
  }

  /** Once a prefix raises, so does the whole list. */
  lemma {:induction false} VerticalRaises(defs: seq<ElementDef>, i: nat, startX: int, startY: int,
                                          getOptions: string -> seq<string>)
    requires i <= |defs| && Vertical(defs[..i], startX, startY, getOptions).Raised?
    ensures Vertical(defs, startX, startY, getOptions) == Vertical(defs[..i], startX, startY, getOptions)
    decreases |defs| - i
  {
    if i < |defs| {
      assert defs[..i + 1][..i] == defs[..i];
      VerticalRaises(defs, i + 1, startX, startY, getOptions);
    } else {
      assert defs[..i] == defs;
    }
  }

  /** `_layout_vertical`. */
  method LayoutVertical(defs: seq<ElementDef>, startX: int, startY: int, getOptions: string -> seq<string>)
    returns (r: Outcome<seq<Placed>>)
    ensures r == Vertical(defs, startX, startY, getOptions)
  {
    var elements: seq<Placed> := [];
    var currentY := startY;
    var i := 0;
    while i < |defs|
      invariant 0 <= i <= |defs|
      invariant Vertical(defs[..i], startX, startY, getOptions) == Done(elements)
      invariant currentY == NextY(elements, startY)
    {
      assert defs[..i + 1][..i] == defs[..i];
      var c := CreateElement(defs[i], getOptions);
      if c.Failed? {
        VerticalRaises(defs, i + 1, startX, startY, getOptions);
        return Raised(c.fault);
      }
      if c.Elements? {
        var els := c.els;
        ghost var before := elements;
        var j := 0;
        while j < |els|
          invariant 0 <= j <= |els|
          invariant StackOn(elements, els[j..], startX + MARGIN, startY) == StackOn(before, els, startX + MARGIN, startY)
          invariant currentY == NextY(elements, startY)
        {
          if els[j].None? {
            VerticalRaises(defs, i + 1, startX, startY, getOptions);
            return Raised(NoWidget);
          }
          var el := els[j].value;
          assert els[j..][1..] == els[j + 1..];
          elements := elements + [Placed(el, startX + MARGIN, currentY)];
          currentY := currentY + el.height + PADDING;
          j := j + 1;
        }
      }
      i := i + 1;
    }
    assert defs[..i] == defs;
    return Done(elements);
  }

  // ---------------------------------------------------- horizontal layout

  datatype Align = AlignLeft | AlignCenter | AlignRight

  /** `edef.get('align', 'left')`, anything but centre or right counting as left. */
  function AlignOf(d: ElementDef): Align {
    if d.align == Some("center") then AlignCenter
    else if d.align == Some("right") then AlignRight
    else AlignLeft
  }

  /** The positions of the definitions in one alignment group, in order:
      each definition is in the group of its alignment and in no other. */
  function Group(defs: seq<ElementDef>, a: Align): (g: seq<nat>)
    ensures forall j :: 0 <= j < |g| ==> g[j] < |defs| && AlignOf(defs[g[j]]) == a
    ensures forall k :: 0 <= k < |defs| && AlignOf(defs[k]) == a ==> k in g
    ensures forall i, j :: 0 <= i < j < |g| ==> g[i] < g[j]
    decreases |defs|
  {
    if defs == [] then []
    else
      var g := Group(defs[..|defs| - 1], a);
      if AlignOf(defs[|defs| - 1]) == a then g + [|defs| - 1] else g
  }

  /** The partition loop: one pass appends each definition to its group. */
  method PartitionDefs(defs: seq<ElementDef>) returns (left: seq<nat>, center: seq<nat>, right: seq<nat>)
    ensures left == Group(defs, AlignLeft) && center == Group(defs, AlignCenter) && right == Group(defs, AlignRight)
  {
    left, center, right := [], [], [];
    var k := 0;
    while k < |defs|
      invariant 0 <= k <= |defs|
      invariant left == Group(defs[..k], AlignLeft)
      invariant center == Group(defs[..k], AlignCenter)
      invariant right == Group(defs[..k], AlignRight)
    {
      assert defs[..k + 1][..k] == defs[..k];
      var align := defs[k].align;
      if align == Some("center") {
        center := center + [k];
      } else if align == Some("right") {
        right := right + [k];
      } else {
        left := left + [k];
      }
      k := k + 1;
    }
    assert defs[..k] == defs;
  }

  /** One created element of a group, with the definition it came from
      (its position, standing for the dict's identity, and its value). */
  datatype Slot = Slot(index: nat, def: ElementDef, w: Option<Widget>)

  function SlotsOf(k: nat, d: ElementDef, els: seq<Option<Widget>>): seq<Slot> {
    seq(|els|, j requires 0 <= j < |els| => Slot(k, d, els[j]))
  }

  /** `create_group(defs, group_elements)`. */
  function CreateGroup(defs: seq<ElementDef>, g: seq<nat>, getOptions: string -> seq<string>): Outcome<seq<Slot>>
    requires forall j :: 0 <= j < |g| ==> g[j] < |defs|
    decreases |g|
  {
    if g == [] then Done([])
    else match CreateGroup(defs, g[..|g| - 1], getOptions) {
      case Raised(f) => Raised(f)
      case Done(ss) =>
        var k := g[|g| - 1];
        match CreateElement(defs[k], getOptions) {
          case Skipped => Done(ss)
          case Failed(f) => Raised(f)
          case Elements(els) => Done(ss + SlotsOf(k, defs[k], els))
        }
    }
  }

  /** `element_map`: for each definition, the position of the last element
      created for it. */
  function LastSlot(ss: seq<Slot>): map<nat, nat>
    decreases |ss|
  {
    if ss == [] then map[] else LastSlot(ss[..|ss| - 1])[ss[|ss| - 1].index := |ss| - 1]
  }

  /** Every entry of `element_map` is a position in the list. */
  lemma {:induction false} LastSlotBound(ss: seq<Slot>)
    ensures forall k :: k in LastSlot(ss) ==> LastSlot(ss)[k] < |ss|
    decreases |ss|
  {
    if ss != [] {
      LastSlotBound(ss[..|ss| - 1]);
    }
  }

  /** Appending an element makes it its definition's entry. */
  lemma LastSlotSnoc(ss: seq<Slot>, s: Slot)
    ensures LastSlot(ss + [s]) == LastSlot(ss)[s.index := |ss|]
  {
    assert (ss + [s])[..|ss|] == ss;
  }

  /** Once a prefix raises, so does the whole group. */
  lemma {:induction false} CreateGroupRaises(defs: seq<ElementDef>, g: seq<nat>, i: nat, getOptions: string -> seq<string>)
    requires forall j :: 0 <= j < |g| ==> g[j] < |defs|
    requires i <= |g| && CreateGroup(defs, g[..i], getOptions).Raised?
    ensures CreateGroup(defs, g, getOptions) == CreateGroup(defs, g[..i], getOptions)
    decreases |g| - i
  {
    if i < |g| {
      assert g[..i + 1][..i] == g[..i];
      CreateGroupRaises(defs, g, i + 1, getOptions);
    } else {
      assert g[..i] == g;
    }
  }

  /** The `create_group` loop, recording each element in `element_map`
      under the position it gets in the list of all groups' elements. */
  method CreateGroupInto(defs: seq<ElementDef>, g: seq<nat>, getOptions: string -> seq<string>,
                         all: seq<Slot>, elementMap: map<nat, nat>)
    returns (r: Outcome<seq<Slot>>, m: map<nat, nat>)
    requires forall j :: 0 <= j < |g| ==> g[j] < |defs|
    requires elementMap == LastSlot(all)
    ensures r == CreateGroup(defs, g, getOptions)
    ensures r.Done? ==> m == LastSlot(all + r.value)
  {
    var slots: seq<Slot> := [];
    m := elementMap;
    assert all + slots == all;
    var i := 0;
    while i < |g|
      invariant 0 <= i <= |g|
      invariant CreateGroup(defs, g[..i], getOptions) == Done(slots)
      invariant m == LastSlot(all + slots)
    {
      assert g[..i + 1][..i] == g[..i];
      var k := g[i];
      var c := CreateElement(defs[k], getOptions);
      if c.Failed? {
        CreateGroupRaises(defs, g, i + 1, getOptions);
        return Raised(c.fault), m;
      }
      if c.Elements? {
        slots, m := FileElements(all, slots, m, k, defs[k], c.els);
      }
      i := i + 1;
    }
    assert g[..i] == g;
    return Done(slots), m;
  }

  /** The inner loop of `create_group`: each element of one definition is
      appended to the group and becomes that definition's `element_map` entry. */
  method FileElements(all: seq<Slot>, slots: seq<Slot>, elementMap: map<nat, nat>, k: nat, d: ElementDef,
                      els: seq<Option<Widget>>) returns (slots': seq<Slot>, m: map<nat, nat>)
    requires elementMap == LastSlot(all + slots)
    ensures slots' == slots + SlotsOf(k, d, els)
    ensures m == LastSlot(all + slots')
  {
    slots', m := slots, elementMap;
    var j := 0;
    while j < |els|
      invariant 0 <= j <= |els|
      invariant slots' == slots + SlotsOf(k, d, els[..j])
      invariant m == LastSlot(all + slots')
    {
      LastSlotSnoc(all + slots', Slot(k, d, els[j]));
      assert all + (slots' + [Slot(k, d, els[j])]) == all + slots' + [Slot(k, d, els[j])];
      m := m[k := |all + slots'|];
      slots' := slots' + [Slot(k, d, els[j])];
      assert SlotsOf(k, d, els[..j + 1]) == SlotsOf(k, d, els[..j]) + [Slot(k, d, els[j])];
      j := j + 1;
    }
    assert els[..j] == els;
  }

  predicate AllMade(ss: seq<Slot>) {
    forall j :: 0 <= j < |ss| ==> ss[j].w.Some?
  }

  function SumWidths(ss: seq<Slot>): int
    requires AllMade(ss)
    decreases |ss|
  {
    if ss == [] then 0 else SumWidths(ss[..|ss| - 1]) + ss[|ss| - 1].w.value.width
  }

  /** `group_width(group)`: 0 for an empty group, else the widths with one
      `PADDING` between neighbours. */
  function GroupWidth(ss: seq<Slot>): int
    requires AllMade(ss)
  {
    if ss == [] then 0 else SumWidths(ss) + PADDING * (|ss| - 1)
  }

  /** The step after slot `k` in a rightward row: `LABEL_INPUT_GAP` when it
      came from the same definition as the slot before it. */
  function StepAfter(ss: seq<Slot>, k: nat): int
    requires k < |ss|
  {
    if 0 < k && ss[k].def == ss[k - 1].def then LABEL_INPUT_GAP else PADDING
  }

  /** The x of slot `k` in a row running right from `x0` (`lx`, `cx`). */
  function RowX(ss: seq<Slot>, x0: int, k: nat): int
    requires AllMade(ss) && k <= |ss|
    decreases k
  {
    if k == 0 then x0 else RowX(ss, x0, k - 1) + ss[k - 1].w.value.width + StepAfter(ss, k - 1)
  }

  /** `start_y + (parent_height - h) // 2`. */
  function Centred(startY: int, parentHeight: int, h: int): int {
    startY + (parentHeight - h) / 2
  }

  function Row(ss: seq<Slot>, x0: int, startY: int, parentHeight: int): seq<Placed>
    requires AllMade(ss)
  {
    seq(|ss|, j requires 0 <= j < |ss| => Placed(ss[j].w.value, RowX(ss, x0, j), Centred(startY, parentHeight, ss[j].w.value.height)))
  }

  /** The step after placing slot `j` on the way left: `LABEL_INPUT_GAP`
      when it came from the same definition as the slot after it. */
  function StepBefore(ss: seq<Slot>, j: nat): int
    requires j < |ss|
  {
    if j + 1 < |ss| && ss[j].def == ss[j + 1].def then LABEL_INPUT_GAP else PADDING
  }

  /** `rx` before slot `j - 1` is placed, in a row running left from `r`. */
  function EdgeX(ss: seq<Slot>, r: int, j: nat): int
    requires AllMade(ss) && j <= |ss|
    decreases |ss| - j
  {
    if j == |ss| then r else EdgeX(ss, r, j + 1) - ss[j].w.value.width - StepBefore(ss, j)
  }

  function RowLeftward(ss: seq<Slot>, r: int, startY: int, parentHeight: int): seq<Placed>
    requires AllMade(ss)
  {
    seq(|ss|, j requires 0 <= j < |ss| =>
      Placed(ss[j].w.value, EdgeX(ss, r, j + 1) - ss[j].w.value.width, Centred(startY, parentHeight, ss[j].w.value.height)))
  }

  /** Where the centre group starts: centred in the space between the side
      groups when it fits, at the left edge otherwise. */
  function CenterStart(leftEdge: int, rightEdge: int, centerW: int): int {
    var space := MaxInt(0, rightEdge - leftEdge);
    if centerW <= space then leftEdge + (space - centerW) / 2 else leftEdge
  }

  /** The loop placing a group left to right from `x0`. */
  method PlaceRightward(ss: seq<Slot>, x0: int, startY: int, parentHeight: int) returns (ps: seq<Placed>)
    requires AllMade(ss)
    ensures ps == Row(ss, x0, startY, parentHeight)
  {
    ps := [];
    var prev: Option<ElementDef> := None;
    var x := x0;
    var k := 0;
    while k < |ss|
      invariant 0 <= k <= |ss| && |ps| == k
      invariant forall j :: 0 <= j < k ==> ps[j] == Row(ss, x0, startY, parentHeight)[j]
      invariant x == RowX(ss, x0, k)
      invariant prev == if k == 0 then None else Some(ss[k - 1].def)
    {
      var el := ss[k].w.value;
      ps := ps + [Placed(el, x, startY + (parentHeight - el.height) / 2)];
      if prev == Some(ss[k].def) {
        x := x + el.width + LABEL_INPUT_GAP;
      } else {
        x := x + el.width + PADDING;
      }
      prev := Some(ss[k].def);
      k := k + 1;
    }
  }

  /** The loop placing a group right to left, its last element ending at `r`. */
  method PlaceLeftward(ss: seq<Slot>, r: int, startY: int, parentHeight: int) returns (ps: seq<Placed>)
    requires AllMade(ss)
    ensures ps == RowLeftward(ss, r, startY, parentHeight)
  {
    ps := [];
    var prev: Option<ElementDef> := None;
    var x := r;
    var j := |ss|;
    while j > 0
      invariant 0 <= j <= |ss| && |ps| == |ss| - j
      invariant forall i :: 0 <= i < |ps| ==> ps[i] == RowLeftward(ss, r, startY, parentHeight)[j + i]
      invariant x == EdgeX(ss, r, j)
      invariant prev == if j == |ss| then None else Some(ss[j].def)
    {
      j := j - 1;
      var el := ss[j].w.value;
      x := x - el.width;
      ps := [Placed(el, x, startY + (parentHeight - el.height) / 2)] + ps;
      if prev == Some(ss[j].def) {
        x := x - LABEL_INPUT_GAP;
      } else {
        x := x - PADDING;
      }
      prev := Some(ss[j].def);
    }
  }

  /** The result list: each definition's entry in `element_map`, in
      definition order. */
  function Collect(n: nat, m: map<nat, nat>, placed: seq<Placed>): seq<Placed>
    requires forall k :: k in m ==> m[k] < |placed|
    decreases n
  {
    if n == 0 then [] else Collect(n - 1, m, placed) + (if n - 1 in m then [placed[m[n - 1]]] else [])
  }

  method CollectResult(n: nat, m: map<nat, nat>, placed: seq<Placed>) returns (result: seq<Placed>)
    requires forall k :: k in m ==> m[k] < |placed|
    ensures result == Collect(n, m, placed)
  {
    result := [];
    var k := 0;
    while k < n
      invariant 0 <= k <= n && result == Collect(k, m, placed)
    {
      if k in m {
        result := result + [placed[m[k]]];
      }
      k := k + 1;
    }
  }

  /** The three groups' created elements. */
  datatype Groups = Groups(left: seq<Slot>, center: seq<Slot>, right: seq<Slot>)

  function AllSlots(gs: Groups): seq<Slot> {
    gs.left + gs.center + gs.right
  }

  /** The three `create_group` calls, left, centre, then right. */
  function CreateGroups(defs: seq<ElementDef>, getOptions: string -> seq<string>): Outcome<Groups> {
    var l := CreateGroup(defs, Group(defs, AlignLeft), getOptions);
    var c := CreateGroup(defs, Group(defs, AlignCenter), getOptions);
    var r := CreateGroup(defs, Group(defs, AlignRight), getOptions);
    if l.Raised? then Raised(l.fault)
    else if c.Raised? then Raised(c.fault)
    else if r.Raised? then Raised(r.fault)
    else Done(Groups(l.value, c.value, r.value))
  }

  method CreateAllGroups(defs: seq<ElementDef>, getOptions: string -> seq<string>)
    returns (r: Outcome<Groups>, elementMap: map<nat, nat>)
    ensures r == CreateGroups(defs, getOptions)
    ensures r.Done? ==> elementMap == LastSlot(AllSlots(r.value))
  {
    var leftDefs, centerDefs, rightDefs := PartitionDefs(defs);
    var l, m1 := CreateGroupInto(defs, leftDefs, getOptions, [], map[]);
    if l.Raised? {
      return Raised(l.fault), m1;
    }
    assert [] + l.value == l.value;
    var c, m2 := CreateGroupInto(defs, centerDefs, getOptions, l.value, m1);
    if c.Raised? {
      return Raised(c.fault), m2;
    }
    var rg, m3 := CreateGroupInto(defs, rightDefs, getOptions, l.value + c.value, m2);
    if rg.Raised? {
      return Raised(rg.fault), m3;
    }
    return Done(Groups(l.value, c.value, rg.value)), m3;
  }

  predicate GroupsMade(gs: Groups) {
    AllMade(gs.left) && AllMade(gs.center) && AllMade(gs.right)
  }

  /** Every element placed by `_layout_horizontal`, by group, and the list it
      returns. */
  datatype Rows = Rows(left: seq<Placed>, center: seq<Placed>, right: seq<Placed>, result: seq<Placed>)

  /** The three placement loops: left from the left margin, right back from
      the right margin, centre between the two. */
  function Placement(gs: Groups, startX: int, startY: int, parentHeight: int): Rows
    requires GroupsMade(gs)
  {
    var leftEdge := startX + MARGIN + GroupWidth(gs.left);
    var rightEdge := startX + WINDOW_WIDTH - MARGIN - GroupWidth(gs.right);
    Rows(Row(gs.left, startX + MARGIN, startY, parentHeight),
         Row(gs.center, CenterStart(leftEdge, rightEdge, GroupWidth(gs.center)), startY, parentHeight),
         RowLeftward(gs.right, startX + WINDOW_WIDTH - MARGIN, startY, parentHeight), [])
  }

  method PlaceGroups(gs: Groups, startX: int, startY: int, parentHeight: int) returns (rows: Rows)
    requires GroupsMade(gs)
    ensures rows == Placement(gs, startX, startY, parentHeight)
  {
    var leftW, centerW, rightW := GroupWidth(gs.left), GroupWidth(gs.center), GroupWidth(gs.right);
    var lp := PlaceRightward(gs.left, startX + MARGIN, startY, parentHeight);
    var rp := PlaceLeftward(gs.right, startX + WINDOW_WIDTH - MARGIN, startY, parentHeight);
    var leftEdge := startX + MARGIN + leftW;
    var rightEdge := startX + WINDOW_WIDTH - MARGIN - rightW;
    var centerSpace := MaxInt(0, rightEdge - leftEdge);
    var cx := if centerW <= centerSpace then leftEdge + (centerSpace - centerW) / 2 else leftEdge;
    var cp := PlaceRightward(gs.center, cx, startY, parentHeight);
    return Rows(lp, cp, rp, []);
  }

  /** The elements of all groups, in the order `element_map` numbers them. */
  function AllPlaced(rows: Rows): seq<Placed> {
    rows.left + rows.center + rows.right
  }

  /** What `_layout_horizontal` produces. A `None` element raises when
      `group_width` reads its width, after every group has been created. */
  function Horizontal(defs: seq<ElementDef>, startX: int, startY: int, parentHeight: int,
                      getOptions: string -> seq<string>): Outcome<Rows>
  {
    match CreateGroups(defs, getOptions) {
      case Raised(f) => Raised(f)
      case Done(gs) =>
        if !GroupsMade(gs) then Raised(NoWidget)
        else
          var rows := Placement(gs, startX, startY, parentHeight);
          LastSlotBound(AllSlots(gs));
          Done(rows.(result := Collect(|defs|, LastSlot(AllSlots(gs)), AllPlaced(rows))))
    }
  }

  /** `_layout_horizontal`. */
  method LayoutHorizontal(defs: seq<ElementDef>, startX: int, startY: int, parentHeight: int,
                          getOptions: string -> seq<string>) returns (r: Outcome<Rows>)
    ensures r == Horizontal(defs, startX, startY, parentHeight, getOptions)
  {
    var groups, elementMap := CreateAllGroups(defs, getOptions);
    if groups.Raised? {
      return Raised(groups.fault);
    }
    var gs := groups.value;
    if !GroupsMade(gs) {
      return Raised(NoWidget);
    }
    var rows := PlaceGroups(gs, startX, startY, parentHeight);
    LastSlotBound(AllSlots(gs));
    var result := CollectResult(|defs|, elementMap, AllPlaced(rows));
    return Done(rows.(result := result));
  }

  /** `auto_layout_elements`: horizontal for `"horizontal"`, vertical for
      any other layout name, inside the parent rectangle offset by `PADDING`. */
  method AutoLayoutElements(defs: seq<ElementDef>, parent: Rect, layout: string, getOptions: string -> seq<string>)
    returns (r: Outcome<seq<Placed>>)
    ensures layout == "horizontal" ==>
              r == match Horizontal(defs, parent.x + PADDING, parent.y + PADDING, parent.height, getOptions)
                     case Done(rows) => Done(rows.result)
                     case Raised(f) => Raised(f)
    ensures layout != "horizontal" ==> r == Vertical(defs, parent.x + PADDING, parent.y + PADDING, getOptions)
  {
    var startX := parent.x + PADDING;
    var startY := parent.y + PADDING;
    if layout == "horizontal" {
      var h := LayoutHorizontal(defs, startX, startY, parent.height, getOptions);
      if h.Raised? {
        return Raised(h.fault);
      }
      return Done(h.value.result);
    } else {
      r := LayoutVertical(defs, startX, startY, getOptions);
    }
  }
}
