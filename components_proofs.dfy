/** What the layouts of components.py promise, proved of the specification
    functions in `Components`. */
module ComponentsProofs {
  import opened Numerics
  import opened Config
  import opened Components

  // ------------------------------------------------------ vertical layout

  /** Elements stacked at one x: the first at `y0`, each next one below the
      previous by its height and `PADDING`. */
  predicate Stacked(ps: seq<Placed>, x: int, y0: int) {
    (forall i :: 0 <= i < |ps| ==> ps[i].x == x) &&
    (|ps| > 0 ==> ps[0].y == y0) &&
    (forall i :: 0 < i < |ps| ==> ps[i].y == ps[i - 1].y + ps[i - 1].w.height + PADDING)
  }

  /** Stacking one definition's elements extends a stack with exactly those
      widgets, in order. */
  lemma {:induction false} StackOnStacks(ps: seq<Placed>, els: seq<Option<Widget>>, x: int, y0: int)
    requires Stacked(ps, x, y0)
    ensures StackOn(ps, els, x, y0).Done? <==> forall j :: 0 <= j < |els| ==> els[j].Some?
    ensures StackOn(ps, els, x, y0).Done? ==>
              var qs := StackOn(ps, els, x, y0).value;
              Stacked(qs, x, y0) && |qs| == |ps| + |els| && qs[..|ps|] == ps &&
              forall j :: 0 <= j < |els| ==> qs[|ps| + j].w == els[j].value
    decreases |els|
  {
    if els != [] && els[0].Some? {
      var ps' := ps + [Placed(els[0].value, x, NextY(ps, y0))];
      assert Stacked(ps', x, y0);
      StackOnStacks(ps', els[1..], x, y0);
      if StackOn(ps, els, x, y0).Done? {
        var qs := StackOn(ps, els, x, y0).value;
        assert qs[..|ps'|] == ps';
        assert qs[..|ps|] == ps'[..|ps|] == ps;
        forall j | 0 <= j < |els|
          ensures qs[|ps| + j].w == els[j].value
        {
          if j > 0 {
            assert qs[|ps'| + (j - 1)].w == els[1..][j - 1].value;
          } else {
            assert qs[|ps|] == ps'[|ps|];
          }
        }
      }
    }
  }

  /** `_layout_vertical` stacks every element it places at
      `start_x + MARGIN`, the first at `start_y`. */
  lemma {:induction false} VerticalStacks(defs: seq<ElementDef>, startX: int, startY: int, getOptions: string -> seq<string>)
    ensures Vertical(defs, startX, startY, getOptions).Done? ==>
              Stacked(Vertical(defs, startX, startY, getOptions).value, startX + MARGIN, startY)
    decreases |defs|
  {
    if defs != [] {
      var init := defs[..|defs| - 1];
      VerticalStacks(init, startX, startY, getOptions);
      var v := Vertical(init, startX, startY, getOptions);
      if v.Done? {
        var c := CreateElement(defs[|defs| - 1], getOptions);
        if c.Elements? {
          StackOnStacks(v.value, c.els, startX + MARGIN, startY);
        }
      }
    }
  }

  /** A definition that creates nothing adds nothing; one whose elements all
      exist adds exactly those, below the rest, and a labelled one puts its
      label right above its element. */
  lemma VerticalAppend(defs: seq<ElementDef>, d: ElementDef, startX: int, startY: int, getOptions: string -> seq<string>)
    requires Vertical(defs, startX, startY, getOptions).Done?
    ensures CreateElement(d, getOptions).Skipped? ==>
              Vertical(defs + [d], startX, startY, getOptions) == Vertical(defs, startX, startY, getOptions)
    ensures CreateElement(d, getOptions).Elements? && d.kind.Some? && d.kind.value in ELEMENT_TYPES ==>
              var ps := Vertical(defs, startX, startY, getOptions).value;
              var els := CreateElement(d, getOptions).els;
              Vertical(defs + [d], startX, startY, getOptions).Done? &&
              var qs := Vertical(defs + [d], startX, startY, getOptions).value;
              |qs| == |ps| + |els| && qs[..|ps|] == ps &&
              (forall j :: 0 <= j < |els| ==> qs[|ps| + j].w == els[j].value) &&
              (d.labelText.Some? ==> qs[|ps|].w.kind == "label" && qs[|ps| + 1].y == qs[|ps|].y + 30 + PADDING)
  {
    assert (defs + [d])[..|defs|] == defs;
    var ps := Vertical(defs, startX, startY, getOptions).value;
    VerticalStacks(defs, startX, startY, getOptions);
    var c := CreateElement(d, getOptions);
    if c.Elements? && d.kind.Some? && d.kind.value in ELEMENT_TYPES {
      assert c.els[|c.els| - 1].Some?;
      assert forall j :: 0 <= j < |c.els| ==> c.els[j].Some?;
      StackOnStacks(ps, c.els, startX + MARGIN, startY);
    }
  }

  // ---------------------------------------------------- horizontal layout

  /** The partition puts every definition in exactly one group. */
  lemma {:induction false} GroupsPartition(defs: seq<ElementDef>)
    ensures |Group(defs, AlignLeft)| + |Group(defs, AlignCenter)| + |Group(defs, AlignRight)| == |defs|
    ensures forall k :: 0 <= k < |defs| ==>
              (k in Group(defs, AlignLeft) <==> AlignOf(defs[k]) == AlignLeft) &&
              (k in Group(defs, AlignCenter) <==> AlignOf(defs[k]) == AlignCenter) &&
              (k in Group(defs, AlignRight) <==> AlignOf(defs[k]) == AlignRight)
    decreases |defs|
  {
    if defs != [] {
      GroupsPartition(defs[..|defs| - 1]);
    }
  }

  lemma {:induction false} SumWidthsAppend(a: seq<Slot>, b: seq<Slot>)
    requires AllMade(a) && AllMade(b)
    ensures AllMade(a + b) && SumWidths(a + b) == SumWidths(a) + SumWidths(b)
    decreases |b|
  {
    if b != [] {
      var b' := b[..|b| - 1];
      assert (a + b)[..|a + b| - 1] == a + b';
      SumWidthsAppend(a, b');
    } else {
      assert a + b == a;
    }
  }

  /** Two groups side by side are as wide as both with one `PADDING`
      between them. */
  lemma GroupWidthAppend(a: seq<Slot>, b: seq<Slot>)
    requires AllMade(a) && AllMade(b) && a != [] && b != []
    ensures AllMade(a + b) && GroupWidth(a + b) == GroupWidth(a) + PADDING + GroupWidth(b)
  {
    SumWidthsAppend(a, b);
  }

  /** The steps taken with `LABEL_INPUT_GAP` among the first `k`. */
  function Pairs(ss: seq<Slot>, k: nat): nat
    requires k <= |ss|
  {
    if k == 0 then 0 else Pairs(ss, k - 1) + (if StepAfter(ss, k - 1) == LABEL_INPUT_GAP then 1 else 0)
  }

  /** A rightward row puts slot `k` past the widths before it, one `PADDING`
      per step, and `LABEL_INPUT_GAP - PADDING` more for every step after an
      element that followed its own definition's label. */
  lemma {:induction false} RowXClosed(ss: seq<Slot>, x0: int, k: nat)
    requires AllMade(ss) && k <= |ss|
    ensures AllMade(ss[..k])
    ensures RowX(ss, x0, k) == x0 + SumWidths(ss[..k]) + PADDING * k + (LABEL_INPUT_GAP - PADDING) * Pairs(ss, k)
    decreases k
  {
    if k > 0 {
      RowXClosed(ss, x0, k - 1);
      assert ss[..k][..k - 1] == ss[..k - 1];
    }
  }

  /** The left group ends where `group_width` says, plus the extra of each
      label-input gap; with no label-input pair it ends exactly at
      `x0 + group_width`. */
  lemma RowEnd(ss: seq<Slot>, x0: int)
    requires AllMade(ss) && ss != []
    ensures RowX(ss, x0, |ss| - 1) + ss[|ss| - 1].w.value.width ==
              x0 + GroupWidth(ss) + (LABEL_INPUT_GAP - PADDING) * Pairs(ss, |ss| - 1)
  {
    var n := |ss|;
    RowXClosed(ss, x0, n - 1);
    assert ss[..n] == ss;
    assert ss[..n][..n - 1] == ss[..n - 1];
  }

  /** Each element of a rightward row starts where the previous one ends
      plus `PADDING`, or `LABEL_INPUT_GAP` after an element that followed its
      own definition's label. Each is centred vertically in the parent. */
  lemma RowSpacing(ss: seq<Slot>, x0: int, startY: int, parentHeight: int)
    requires AllMade(ss)
    ensures var ps := Row(ss, x0, startY, parentHeight);
            |ps| == |ss| && (ss != [] ==> ps[0].x == x0) &&
            (forall j :: 0 <= j < |ss| ==>
               ps[j].w == ss[j].w.value && ps[j].y == startY + (parentHeight - ss[j].w.value.height) / 2) &&
            forall j :: 0 < j < |ss| ==>
              ps[j].x == ps[j - 1].x + ps[j - 1].w.width +
                         (if j > 1 && ss[j - 1].def == ss[j - 2].def then LABEL_INPUT_GAP else PADDING)
  {
  }

  /** The right group is right-aligned: its last element ends at `r`, and
      each earlier one ends `PADDING` (or `LABEL_INPUT_GAP`) left of the
      next. */
  lemma RightAligned(ss: seq<Slot>, r: int, startY: int, parentHeight: int)
    requires AllMade(ss)
    ensures var ps := RowLeftward(ss, r, startY, parentHeight);
            |ps| == |ss| &&
            (ss != [] ==> ps[|ss| - 1].x + ps[|ss| - 1].w.width == r) &&
            (forall j :: 0 <= j < |ss| ==>
               ps[j].w == ss[j].w.value && ps[j].y == startY + (parentHeight - ss[j].w.value.height) / 2) &&
            forall j :: 0 <= j < |ss| - 1 ==>
              ps[j].x + ps[j].w.width + StepBefore(ss, j + 1) == ps[j + 1].x
  {
  }

  /** The centre group, when it fits between the side groups, is centred
      there with any odd pixel on its right; otherwise it starts at the left
      edge. */
  lemma CenterCentred(leftEdge: int, rightEdge: int, centerW: int)
    ensures var cx := CenterStart(leftEdge, rightEdge, centerW);
            var space := MaxInt(0, rightEdge - leftEdge);
            (centerW <= space ==>
               leftEdge <= cx && cx + centerW <= leftEdge + space &&
               cx - leftEdge <= (leftEdge + space) - (cx + centerW) <= cx - leftEdge + 1) &&
            (space < centerW ==> cx == leftEdge)
  {
  }

  /** An element no taller than its parent lies inside it, with the spare
      height split evenly (the odd pixel below). */
  lemma CentredInParent(startY: int, parentHeight: int, h: int)
    requires 0 <= h <= parentHeight
    ensures var y := Centred(startY, parentHeight, h);
            startY <= y && y + h <= startY + parentHeight &&
            y - startY <= (startY + parentHeight) - (y + h) <= y - startY + 1
  {
  }

  /** `element_map`: the entry for each definition is its last element. */
  lemma {:induction false} LastSlotSpec(ss: seq<Slot>)
    ensures forall k :: k in LastSlot(ss) ==> LastSlot(ss)[k] < |ss| && ss[LastSlot(ss)[k]].index == k
    ensures forall k, j :: k in LastSlot(ss) && LastSlot(ss)[k] < j < |ss| ==> ss[j].index != k
    ensures forall j :: 0 <= j < |ss| ==> ss[j].index in LastSlot(ss)
    decreases |ss|
  {
    if ss != [] {
      var init := ss[..|ss| - 1];
      LastSlotSpec(init);
      assert forall j :: 0 <= j < |init| ==> ss[j] == init[j];
    }
  }

  /** The definitions listed in the result: those in `m`, in order. */
  function Listed(n: nat, m: map<nat, nat>): (ks: seq<nat>)
    ensures forall i :: 0 <= i < |ks| ==> ks[i] < n && ks[i] in m
    ensures forall k :: 0 <= k < n && k in m ==> k in ks
    ensures forall i, j :: 0 <= i < j < |ks| ==> ks[i] < ks[j]
  {
    if n == 0 then [] else Listed(n - 1, m) + (if n - 1 in m then [n - 1] else [])
  }

  /** The result list holds one element per listed definition, in
      definition order. */
  lemma {:induction false} CollectListed(n: nat, m: map<nat, nat>, placed: seq<Placed>)
    requires forall k :: k in m ==> m[k] < |placed|
    ensures |Collect(n, m, placed)| == |Listed(n, m)| <= n
    ensures forall i :: 0 <= i < |Listed(n, m)| ==> Collect(n, m, placed)[i] == placed[m[Listed(n, m)[i]]]
  {
    if n > 0 {
      CollectListed(n - 1, m, placed);
    }
  }

  /** The result of `_layout_horizontal` has at most one element per
      definition, in definition order: for each definition that created
      elements, the last one created for it. */
  lemma HorizontalResult(defs: seq<ElementDef>, startX: int, startY: int, parentHeight: int,
                         getOptions: string -> seq<string>)
    requires Horizontal(defs, startX, startY, parentHeight, getOptions).Done?
    ensures var gs := CreateGroups(defs, getOptions).value;
            var all := AllSlots(gs);
            var rows := Horizontal(defs, startX, startY, parentHeight, getOptions).value;
            var ks := Listed(|defs|, LastSlot(all));
            |rows.result| == |ks| <= |defs| &&
            (forall j :: 0 <= j < |all| ==> all[j].index < |defs| ==> all[j].index in ks) &&
            forall i :: 0 <= i < |ks| ==>
              var p := LastSlot(all)[ks[i]];
              p < |all| && all[p].index == ks[i] &&
              (forall j :: p < j < |all| ==> all[j].index != ks[i]) &&
              rows.result[i] == AllPlaced(rows)[p]
  {
    var gs := CreateGroups(defs, getOptions).value;
    var all := AllSlots(gs);
    var rows := Horizontal(defs, startX, startY, parentHeight, getOptions).value;
    LastSlotSpec(all);
    LastSlotBound(all);
    CollectListed(|defs|, LastSlot(all), AllPlaced(rows));
  }
}
