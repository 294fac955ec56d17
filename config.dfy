/** Configuration constants. The newer generation (`core/`) reads
    `setup/config.py`; `ui_actions.py`, `components.py` and `panel_builder.py`
    read the root `config.py`. Both files agree on every value used here. */
module Config {
  const WINDOW_WIDTH: int := 1200
  const WINDOW_HEIGHT: int := 700
  /** Root `config.py`: the right-hand toolbar and the left sidebar. */
  const TOOLBAR_WIDTH: int := 200
  const LEFT_SIDEBAR_WIDTH: int := 200
  /** `setup/config.py`; the root `config.py` that `components.py` imports
      does not define it, so the value from `setup/config.py` is used. */
  const SIDEBAR_WIDTH: int := 200
  const HORIZONTAL_BAR_HEIGHT: int := 50
  const GRID_SIZE: int := 20
  const PADDING: int := 0
  const MARGIN: int := 10
  const LABEL_INPUT_GAP: int := 500

  /** Gravitational constant and coefficient of restitution (`setup/config.py`). */
  const G: real := 0.0000000000667430
  const COEFFICIENT_OF_RESTITUTION: real := 0.1

  /** `DEFAULT_INPUTS["name"]` of the root `config.py`. */
  const DEFAULT_NAME: string := ""

  /** `PANEL_CONFIG` heights and widths of the root `config.py`. */
  const TOP_PANEL_HEIGHT: int := 50
  const BOTTOM_PANEL_HEIGHT: int := 50
  const LEFT_PANEL_WIDTH: int := LEFT_SIDEBAR_WIDTH
  const RIGHT_PANEL_WIDTH: int := TOOLBAR_WIDTH
}
