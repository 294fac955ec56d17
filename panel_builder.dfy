/** panel_builder.py: the rectangles of the four panels around the
    simulation area, from the sizes in `PANEL_CONFIG`. */
module PanelBuilder {
  import opened Config
  import opened Components

  /** A panel rectangle, or the `ValueError` raised for any other name. */
  datatype PanelLookup = Found(rect: Rect) | UnknownPanel(name: string)

  /** `get_panel_rect(panel_name)`. */
  function GetPanelRect(name: string): (r: PanelLookup)
    ensures r.UnknownPanel? <==> name !in {"top", "bottom", "left", "right"}
    ensures r.UnknownPanel? ==> r.name == name
    ensures r.Found? ==> 0 <= r.rect.x && r.rect.x + r.rect.width <= WINDOW_WIDTH &&
                         0 <= r.rect.y && r.rect.y + r.rect.height <= WINDOW_HEIGHT
  {
    if name == "top" then Found(Rect(0, 0, WINDOW_WIDTH, TOP_PANEL_HEIGHT))
    else if name == "bottom" then
      Found(Rect(0, WINDOW_HEIGHT - BOTTOM_PANEL_HEIGHT, WINDOW_WIDTH, BOTTOM_PANEL_HEIGHT))
    else if name == "left" then
      Found(Rect(0, TOP_PANEL_HEIGHT, LEFT_PANEL_WIDTH, WINDOW_HEIGHT - TOP_PANEL_HEIGHT - BOTTOM_PANEL_HEIGHT))
    else if name == "right" then
      Found(Rect(WINDOW_WIDTH - RIGHT_PANEL_WIDTH, TOP_PANEL_HEIGHT, RIGHT_PANEL_WIDTH,
                 WINDOW_HEIGHT - TOP_PANEL_HEIGHT - BOTTOM_PANEL_HEIGHT))
    else UnknownPanel(name)
  }

  /** The panels frame the window: the top and bottom panels span its
      width at its two edges; the side panels fill the height between them,
      at the left and right edges, and do not meet. */
  lemma PanelsFrameWindow()
    ensures var top, bottom := GetPanelRect("top").rect, GetPanelRect("bottom").rect;
            var left, right := GetPanelRect("left").rect, GetPanelRect("right").rect;
            top == Rect(0, 0, WINDOW_WIDTH, TOP_PANEL_HEIGHT) &&
            bottom.x == 0 && bottom.width == WINDOW_WIDTH && bottom.y + bottom.height == WINDOW_HEIGHT &&
            left.y == top.y + top.height && right.y == left.y &&
            left.y + left.height == bottom.y && right.y + right.height == bottom.y &&
            right.height == left.height &&
            top.height + left.height + bottom.height == WINDOW_HEIGHT &&
            left.x == 0 && right.x + right.width == WINDOW_WIDTH &&
            left.x + left.width <= right.x
  {
  }
}
